/** Conversations: numbered messages, retried sends, and receipts that mirror the read cursors exactly. */
module Messaging {
  import opened Basics

  const MAX_MESSAGE_BODY: nat := 8000
  const MAX_ATTACHMENTS: nat := 10

  datatype Message = Message(sender: Id, sequence: nat, clientId: string, body: string, attachments: seq<Id>)

  datatype ReceiptKind = Delivered | Read

  /** A receipt names its message by row number. */
  datatype Receipt = Receipt(message: Id, user: Id, kind: ReceiptKind)

  datatype Error = InvalidInput | Forbidden | ClientIdReused | InvalidAttachment

  datatype Result<+T> = Ok(value: T) | Err(error: Error)

  // ---- What a conversation keeps ----------------------------------------------------------------

  /** The sequences are exactly 1 up to one less than the next one. */
  predicate Numbered(messages: seq<Message>, next: nat) {
    next == |messages| + 1 && forall i :: 0 <= i < |messages| ==> messages[i].sequence == i + 1
  }

  predicate UniqueClients(messages: seq<Message>) {
    forall i, k :: 0 <= i < k < |messages| ==>
      messages[i].sender != messages[k].sender || messages[i].clientId != messages[k].clientId
  }

  predicate UniqueReceipts(receipts: seq<Receipt>) {
    forall i, k :: 0 <= i < k < |receipts| ==> receipts[i] != receipts[k]
  }

  predicate InRange(marks: map<Id, nat>, next: nat) {
    forall u :: u in marks ==> marks[u] < next
  }

  /** User `u` did not send message `m` and has marked that far. */
  predicate Reaches(messages: seq<Message>, marks: map<Id, nat>, m: Id, u: Id) {
    m < |messages| && u in marks && messages[m].sender != u && messages[m].sequence <= marks[u]
  }

  /** The receipts of a kind are exactly those that the marks call for. */
  ghost predicate Mirrors(receipts: seq<Receipt>, kind: ReceiptKind, messages: seq<Message>, marks: map<Id, nat>) {
    forall m: Id, u: Id :: Receipt(m, u, kind) in receipts <==> Reaches(messages, marks, m, u)
  }

  // ---- Sending ----------------------------------------------------------------------------------

  predicate HasRepeats(ids: seq<Id>) { exists i, k :: 0 <= i < k < |ids| && ids[i] == ids[k] }

  predicate SentAs(x: Message, user: Id, clientId: string) { x.sender == user && x.clientId == clientId }

  /** The limits of a message that do not depend on the conversation. */
  predicate WithinLimits(clientId: string, body: string, attachments: seq<Id>) {
    && 1 <= |clientId| <= 80 && |body| <= MAX_MESSAGE_BODY
    && |attachments| <= MAX_ATTACHMENTS && !HasRepeats(attachments)
    && (body != "" || attachments != [])
  }

  /** The message says what `body` and `attachments` say; the order of the attachments does not matter. */
  predicate Says(x: Message, body: string, attachments: seq<Id>) {
    x.body == body && multiset(x.attachments) == multiset(attachments)
  }

  /** The user has sent a message under this client id. */
  predicate HasSent(messages: seq<Message>, user: Id, clientId: string) {
    exists x :: x in messages && SentAs(x, user, clientId)
  }

  predicate HasSaid(messages: seq<Message>, user: Id, clientId: string, body: string, attachments: seq<Id>) {
    exists x :: x in messages && SentAs(x, user, clientId) && Says(x, body, attachments)
  }

  /** A client id names at most one message of a user. */
  lemma OneMessage(messages: seq<Message>, user: Id, clientId: string, x: Message, body: string, attachments: seq<Id>)
    requires UniqueClients(messages) && x in messages && SentAs(x, user, clientId)
    ensures HasSent(messages, user, clientId)
    ensures HasSaid(messages, user, clientId, body, attachments) <==> Says(x, body, attachments)
  {
    var i :| 0 <= i < |messages| && messages[i] == x;
  }

  lemma NeverSent(messages: seq<Message>, user: Id, clientId: string)
    requires forall i :: 0 <= i < |messages| ==> !SentAs(messages[i], user, clientId)
    ensures !HasSent(messages, user, clientId)
    ensures forall body, attachments :: !HasSaid(messages, user, clientId, body, attachments)
  {
  }

  lemma NumberedMore(messages: seq<Message>, next: nat, x: Message)
    requires Numbered(messages, next) && x.sequence == next
    ensures Numbered(messages + [x], next + 1)
  {
  }

  /** A new message is beyond every mark, so it calls for no receipt yet. */
  lemma {:induction false} MirrorsMore(receipts: seq<Receipt>, kind: ReceiptKind, messages: seq<Message>,
                                       marks: map<Id, nat>, next: nat, x: Message)
    requires Mirrors(receipts, kind, messages, marks) && InRange(marks, next) && x.sequence == next
    requires Numbered(messages, next)
    ensures Mirrors(receipts, kind, messages + [x], marks)
  {
    forall m: Id, u: Id ensures Reaches(messages + [x], marks, m, u) <==> Reaches(messages, marks, m, u) {
      if m < |messages| {
        assert (messages + [x])[m] == messages[m];
      }
    }
  }

  // ---- Marking ----------------------------------------------------------------------------------

  /** The receipts one marking adds: for the other users' messages up to `through`, those not there yet. */
  predicate Adds(receipts: seq<Receipt>, messages: seq<Message>, user: Id, through: nat, kinds: set<ReceiptKind>,
                 r: Receipt) {
    && r !in receipts && r.user == user && r.kind in kinds
    && r.message < |messages| && messages[r.message].sender != user && messages[r.message].sequence <= through
  }

  function Later(marks: map<Id, nat>, user: Id, through: nat): map<Id, nat>
    requires user in marks
  {
    marks[user := if marks[user] < through then through else marks[user]]
  }

  /** Marking up to `through` moves the mirrored marks of a marked kind, and leaves the other kind alone. */
  lemma MirrorsMarked(receipts: seq<Receipt>, added: seq<Receipt>, kind: ReceiptKind, messages: seq<Message>,
                      marks: map<Id, nat>, user: Id, through: nat, kinds: set<ReceiptKind>)
    requires Mirrors(receipts, kind, messages, marks) && user in marks
    requires forall r :: r in added <==> Adds(receipts, messages, user, through, kinds, r)
    ensures Mirrors(receipts + added, kind, messages, if kind in kinds then Later(marks, user, through) else marks)
  {
    var after := if kind in kinds then Later(marks, user, through) else marks;
    forall m: Id, u: Id ensures Receipt(m, u, kind) in receipts + added <==> Reaches(messages, after, m, u) {
      var r := Receipt(m, u, kind);
      assert r in added <==> Adds(receipts, messages, user, through, kinds, r);
      assert r in receipts <==> Reaches(messages, marks, m, u);
    }
  }

  /** Up to the cursor every READ receipt is already there: skipping such a marking loses nothing. */
  lemma NothingLeftToRead(receipts: seq<Receipt>, messages: seq<Message>, cursors: map<Id, nat>,
                          delivered: map<Id, nat>, user: Id, through: nat, r: Receipt)
    requires Mirrors(receipts, Read, messages, cursors) && Mirrors(receipts, Delivered, messages, delivered)
    requires user in cursors && user in delivered && through <= cursors[user] <= delivered[user]
    ensures !Adds(receipts, messages, user, through, {Delivered, Read}, r)
  {
    if Adds(receipts, messages, user, through, {Delivered, Read}, r) {
      assert r == Receipt(r.message, r.user, r.kind);
      assert Reaches(messages, cursors, r.message, user) && Reaches(messages, delivered, r.message, user);
    }
  }

  // ---- Paging -----------------------------------------------------------------------------------

  function Min(a: int, b: int): int { if a < b then a else b }

  /** The messages after a sequence number, at most `limit` of them. */
  function Page(messages: seq<Message>, after: nat, limit: nat): seq<Message> {
    messages[Min(after, |messages|)..Min(after + limit, |messages|)]
  }

  /** What a client collects that asks for page after page, each time from the last sequence it has seen. */
  function Walk(messages: seq<Message>, after: nat, limit: nat): seq<Message>
    requires limit > 0 && Numbered(messages, |messages| + 1)
    decreases |messages| - after
  {
    var page := Page(messages, after, limit);
    if page == [] then [] else page + Walk(messages, page[|page| - 1].sequence, limit)
  }

  /** Paging with any limit collects every message after the start exactly once and in order. */
  lemma {:induction false} WalkCollects(messages: seq<Message>, after: nat, limit: nat)
    requires limit > 0 && Numbered(messages, |messages| + 1) && after <= |messages|
    ensures Walk(messages, after, limit) == messages[after..]
    decreases |messages| - after
  {
    var page := Page(messages, after, limit);
    if page != [] {
      var last := page[|page| - 1].sequence;
      assert last == after + |page|;
      WalkCollects(messages, last, limit);
      assert messages[after..] == page + messages[last..];
    }
  }

  // ---- The conversation -------------------------------------------------------------------------

  class Conversation {
    var nextSequence: nat
    var messages: seq<Message>
    var receipts: seq<Receipt>
    /** last_read_sequence of every member. */
    var cursors: map<Id, nat>
    /** How far each member has ever marked messages as delivered. */
    ghost var delivered: map<Id, nat>

    ghost predicate Valid()
      reads this
    {
      && Numbered(messages, nextSequence)
      && UniqueClients(messages)
      && UniqueReceipts(receipts)
      && InRange(cursors, nextSequence) && InRange(delivered, nextSequence)
      && cursors.Keys == delivered.Keys
      && (forall u :: u in cursors ==> cursors[u] <= delivered[u])
      && Mirrors(receipts, Read, messages, cursors)
      && Mirrors(receipts, Delivered, messages, delivered)
    }

    /** get_or_create_contract_conversation: an empty conversation of the two parties. */
    constructor (employer: Id, freelancer: Id)
      ensures Valid() && messages == [] && cursors == map[employer := 0, freelancer := 0]
    {
      nextSequence, messages, receipts := 1, [], [];
      cursors := map[employer := 0, freelancer := 0];
      delivered := map[employer := 0, freelancer := 0];
    }

    /**
     send_message. `usable` says whether every attachment exists, is the sender's own and may be sent. Every answer
     is given exactly in its own case, and only a new message changes the conversation.
     */
    method SendMessage(user: Id, clientId: string, body: string, attachments: seq<Id>, usable: bool)
      returns (r: Result<Message>)
      requires Valid()
      modifies `messages, `nextSequence
      ensures Valid()
      ensures r.Ok? <==>
        && WithinLimits(clientId, body, attachments) && user in cursors
        && (|| HasSaid(old(messages), user, clientId, body, attachments)
            || (!HasSent(old(messages), user, clientId) && usable))
      ensures r == Err(InvalidInput) <==> !WithinLimits(clientId, body, attachments)
      ensures r == Err(Forbidden) <==> WithinLimits(clientId, body, attachments) && user !in cursors
      ensures r == Err(ClientIdReused) <==>
        && WithinLimits(clientId, body, attachments) && user in cursors && HasSent(old(messages), user, clientId)
        && !HasSaid(old(messages), user, clientId, body, attachments)
      ensures r == Err(InvalidAttachment) <==>
        && WithinLimits(clientId, body, attachments) && user in cursors && !HasSent(old(messages), user, clientId)
        && !usable
      ensures r.Ok? && !HasSent(old(messages), user, clientId) ==>
                && r.value == Message(user, old(nextSequence), clientId, body, attachments)
                && messages == old(messages) + [r.value] && nextSequence == old(nextSequence) + 1
      ensures r.Ok? && HasSent(old(messages), user, clientId) ==>
                r.value in old(messages) && SentAs(r.value, user, clientId) && Says(r.value, body, attachments)
      ensures r.Err? || HasSent(old(messages), user, clientId) ==>
                messages == old(messages) && nextSequence == old(nextSequence)
    {
      hide HasSent, HasSaid;
      if |clientId| == 0 || |clientId| > 80 {
        return Err(InvalidInput);
      }
      if |body| > MAX_MESSAGE_BODY {
        return Err(InvalidInput);
      }
      if |attachments| > MAX_ATTACHMENTS || HasRepeats(attachments) {
        return Err(InvalidInput);
      }
      if body == "" && attachments == [] {
        return Err(InvalidInput);
      }
      if user !in cursors {
        return Err(Forbidden);
      }
      var prior := LastWhere(messages, (x: Message) => SentAs(x, user, clientId));
      if prior.Some? {
        var x := messages[prior.value];
        assert SentAs(x, user, clientId);
        OneMessage(messages, user, clientId, x, body, attachments);
        if x.body != body || multiset(x.attachments) != multiset(attachments) {
          return Err(ClientIdReused);
        }
        return Ok(x);
      }
      NeverSent(messages, user, clientId);
      if !usable {
        return Err(InvalidAttachment);
      }
      var x := Message(user, nextSequence, clientId, body, attachments);
      NumberedMore(messages, nextSequence, x);
      MirrorsMore(receipts, Read, messages, cursors, nextSequence, x);
      MirrorsMore(receipts, Delivered, messages, delivered, nextSequence, x);
      nextSequence := nextSequence + 1;
      messages := messages + [x];
      return Ok(x);
    }

    /** mark_delivered. */
    method MarkDelivered(user: Id, through: int) returns (r: Result<nat>)
      requires Valid()
      modifies `receipts, `cursors, `delivered
      ensures Valid() && cursors == old(cursors) && (r.Ok? <==> user in cursors && 0 <= through < nextSequence)
      ensures r.Ok? ==> r.value == through && delivered == Later(old(delivered), user, through)
      ensures r.Err? ==> receipts == old(receipts) && delivered == old(delivered)
    {
      r := MarkReceipts(user, through, false);
    }

    /** mark_read. The cursor never moves back: an older position is answered with the cursor as it is. */
    method MarkRead(user: Id, through: int) returns (r: Result<nat>)
      requires Valid()
      modifies `receipts, `cursors, `delivered
      ensures Valid() && (r.Ok? <==> user in old(cursors) && 0 <= through < nextSequence)
      ensures r.Ok? ==> cursors == Later(old(cursors), user, through) && r.value == cursors[user]
      ensures r.Ok? ==> delivered == Later(old(delivered), user, through)
      ensures r.Err? ==> receipts == old(receipts) && cursors == old(cursors) && delivered == old(delivered)
    {
      r := MarkReceipts(user, through, true);
    }

    /** _mark_receipts. */
    method MarkReceipts(user: Id, through: int, read: bool) returns (r: Result<nat>)
      requires Valid()
      modifies `receipts, `cursors, `delivered
      ensures Valid() && (r.Ok? <==> user in old(cursors) && 0 <= through < nextSequence)
      ensures r.Err? ==> receipts == old(receipts) && cursors == old(cursors) && delivered == old(delivered)
      ensures r.Err? ==> r.error == if user !in old(cursors) then Forbidden else InvalidInput
      ensures r.Ok? ==> delivered == Later(old(delivered), user, through)
      ensures r.Ok? && read ==> cursors == Later(old(cursors), user, through) && r.value == cursors[user]
      ensures r.Ok? && !read ==> cursors == old(cursors) && r.value == through
    {
      if user !in cursors {
        return Err(Forbidden);
      }
      if through < 0 || through > nextSequence - 1 {
        return Err(InvalidInput);
      }
      if read && through <= cursors[user] {
        assert cursors == Later(cursors, user, through) && delivered == Later(delivered, user, through);
        return Ok(cursors[user]);
      }
      var kinds := if read then {Delivered, Read} else {Delivered};
      var added := MissingReceipts(user, through, kinds);
      MirrorsMarked(receipts, added, Read, messages, cursors, user, through, kinds);
      MirrorsMarked(receipts, added, Delivered, messages, delivered, user, through, kinds);
      UniqueMore(receipts, added);
      receipts := receipts + added;
      delivered := Later(delivered, user, through);
      if read {
        cursors := cursors[user := through];
      }
      return Ok(through);
    }

    /** One new receipt for every message and kind that has none yet. */
    method MissingReceipts(user: Id, through: nat, kinds: set<ReceiptKind>) returns (added: seq<Receipt>)
      ensures forall r :: r in added <==> Adds(receipts, messages, user, through, kinds, r)
      ensures UniqueReceipts(added)
    {
      added := [];
      var i := 0;
      while i < |messages|
        invariant 0 <= i <= |messages|
        invariant forall r :: r in added <==> r.message < i && Adds(receipts, messages, user, through, kinds, r)
        invariant UniqueReceipts(added)
      {
        if messages[i].sequence <= through && messages[i].sender != user {
          var rows := MissingKinds(i, user, kinds);
          forall r ensures r in rows <==> r.message == i && Adds(receipts, messages, user, through, kinds, r) {
            assert r.message == i && r.user == user ==> r == Receipt(i, user, r.kind);
          }
          UniqueMore(added, rows);
          added := added + rows;
        }
        i := i + 1;
      }
    }

    method MissingKinds(i: Id, user: Id, kinds: set<ReceiptKind>) returns (rows: seq<Receipt>)
      ensures forall r :: r in rows ==> r == Receipt(i, user, r.kind)
      ensures forall kind :: Receipt(i, user, kind) in rows <==> kind in kinds && Receipt(i, user, kind) !in receipts
      ensures UniqueReceipts(rows)
    {
      rows := [];
      if Delivered in kinds && Receipt(i, user, Delivered) !in receipts {
        rows := [Receipt(i, user, Delivered)];
      }
      if Read in kinds && Receipt(i, user, Read) !in receipts {
        rows := rows + [Receipt(i, user, Read)];
      }
      forall kind ensures Receipt(i, user, kind) in rows <==> kind in kinds && Receipt(i, user, kind) !in receipts {
        match kind {
          case Delivered =>
          case Read =>
        }
      }
    }

    /** list_messages. */
    method ListMessages(user: Id, after: int, limit: int) returns (r: Result<seq<Message>>)
      requires Valid()
      ensures r.Ok? <==> user in cursors && after >= 0 && 1 <= limit <= 100
      ensures r.Err? ==> r.error == if user !in cursors then Forbidden else InvalidInput
      ensures r.Ok? ==> r.value == Page(messages, after, limit)
    {
      if user !in cursors {
        return Err(Forbidden);
      }
      if after < 0 || limit < 1 || limit > 100 {
        return Err(InvalidInput);
      }
      var found, i := [], 0;
      while i < |messages| && |found| < limit
        invariant 0 <= i <= |messages|
        invariant found == if i <= after then [] else messages[after..i]
        invariant |found| <= limit
      {
        if messages[i].sequence > after {
          assert messages[after..i + 1] == messages[after..i] + [messages[i]];
          found := found + [messages[i]];
        }
        i := i + 1;
      }
      return Ok(found);
    }
  }

  lemma UniqueMore(receipts: seq<Receipt>, added: seq<Receipt>)
    requires UniqueReceipts(receipts) && UniqueReceipts(added) && forall r :: r in added ==> r !in receipts
    ensures UniqueReceipts(receipts + added)
  {
    var all := receipts + added;
    forall i, k | 0 <= i < k < |all| ensures all[i] != all[k] {
      if i < |receipts| <= k {
        assert all[k] in added && all[i] in receipts;
      }
    }
  }
}
