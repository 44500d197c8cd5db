/** The relational store behind the application, as a value: the Conversation and Message tables,
    their auto-increment counters, an abstract clock and the log of writes performed so far.
    Timestamps come from the clock, which advances by one tick at every timestamped write. */
module Store {
  import opened Wrappers
  import Sorting

  /** A row of the Conversation table. */
  datatype Conversation = Conversation(id: int, title: string, updatedAt: nat)

  /** A row of the Message table. The role is free text: nothing checks it on insert. */
  datatype Message = Message(id: int, content: string, role: string, conversationId: int, createdAt: nat)

  /** One write performed by the store, recorded in the order it happened. */
  datatype Write =
    | ConversationInserted(id: int)
    | MessageInserted(id: int, conversationId: int)
    | ConversationTouched(id: int)
    | TitleSet(id: int, title: string)
    | ConversationDeleted(id: int)

  /** Why a store call failed: no such row, a foreign key naming no row, or no connection. */
  datatype StoreError = NotFound | ForeignKeyViolation | Unavailable

  datatype Db = Db(
    conversations: seq<Conversation>,
    messages: seq<Message>,
    nextConversationId: int,
    nextMessageId: int,
    clock: nat,
    log: seq<Write>)

  /** One store call: the store afterwards and what the call returned or threw. */
  datatype Step<T> = Step(db: Db, result: Result<T, StoreError>)

  /** A fresh database: no rows, both auto-increment counters at 1. */
  function Empty(): Db {
    Db([], [], 1, 1, 0, [])
  }

  /** Position of the conversation with the given id, if there is one. */
  function IndexOf(cs: seq<Conversation>, id: int): (r: Option<nat>)
    ensures r.Some? ==> r.value < |cs| && cs[r.value].id == id
    ensures r.None? <==> forall i :: 0 <= i < |cs| ==> cs[i].id != id
  {
    if |cs| == 0 then None
    else if cs[|cs| - 1].id == id then Some(|cs| - 1)
    else IndexOf(cs[..|cs| - 1], id)
  }

  /** Two conversation tables with the same ids in the same places agree on every lookup. */
  lemma {:induction false} IndexOfSameIds(cs: seq<Conversation>, cs': seq<Conversation>, id: int)
    requires |cs| == |cs'|
    requires forall i :: 0 <= i < |cs| ==> cs[i].id == cs'[i].id
    ensures IndexOf(cs, id) == IndexOf(cs', id)
  {
    if |cs| > 0 && cs[|cs| - 1].id != id {
      IndexOfSameIds(cs[..|cs| - 1], cs'[..|cs'| - 1], id);
    }
  }

  /** The conversation with id `id` exists. */
  predicate HasConversation(db: Db, id: int) {
    IndexOf(db.conversations, id).Some?
  }

  /** The conversation row with the given id. */
  function ConversationOf(db: Db, id: int): Conversation
    requires HasConversation(db, id)
  {
    db.conversations[IndexOf(db.conversations, id).value]
  }

  /** Ordering key of messages: creation time, oldest first. */
  function CreatedAt(m: Message): int {
    m.createdAt
  }

  /** The messages of conversation `cid`, in the order they appear in `ms`. */
  function MessagesOf(ms: seq<Message>, cid: int): (r: seq<Message>)
    ensures |r| <= |ms|
    ensures forall x :: x in r <==> x in ms && x.conversationId == cid
    ensures Sorting.SortedBy(ms, CreatedAt) ==> Sorting.SortedBy(r, CreatedAt)
  {
    if |ms| == 0 then []
    else
      var init := ms[..|ms| - 1];
      var last := ms[|ms| - 1];
      var r' := MessagesOf(init, cid);
      assert ms == init + [last];
      if last.conversationId == cid then
        assert Sorting.SortedBy(ms, CreatedAt) ==> Sorting.SortedBy(r' + [last], CreatedAt) by {
          if Sorting.SortedBy(ms, CreatedAt) {
            SortedBelowLast(init, last, r');
            Sorting.SortedAppend(r', last, CreatedAt);
          }
        }
        r' + [last]
      else
        r'
  }

  /** A message appended to the table is listed last among its conversation's messages. */
  lemma MessagesOfAppend(ms: seq<Message>, m: Message, cid: int)
    requires m.conversationId == cid
    ensures MessagesOf(ms + [m], cid) == MessagesOf(ms, cid) + [m]
  {
    assert (ms + [m])[..|ms|] == ms;
  }

  /** In an ordered `init + [last]`, rows drawn from `init` are not newer than `last`. */
  lemma SortedBelowLast(init: seq<Message>, last: Message, sub: seq<Message>)
    requires Sorting.SortedBy(init + [last], CreatedAt)
    requires forall x :: x in sub ==> x in init
    ensures Sorting.KeysAtMost(sub, CreatedAt, last.createdAt)
  {
    forall i | 0 <= i < |sub|
      ensures sub[i].createdAt <= last.createdAt
    {
      assert sub[i] in sub;
      var j :| 0 <= j < |init| && init[j] == sub[i];
      assert (init + [last])[j] == sub[i];
      assert (init + [last])[|init|] == last;
    }
  }

  /** A conversation none of whose messages appear in `ms` gets none from `MessagesOf`. */
  lemma NoMessagesOf(ms: seq<Message>, cid: int)
    requires forall i :: 0 <= i < |ms| ==> ms[i].conversationId != cid
    ensures MessagesOf(ms, cid) == []
  {
  }

  /** Messages in strictly increasing id and creation time, as the table's insertion order keeps them. */
  ghost predicate InCreationOrder(ms: seq<Message>) {
    forall i, j :: 0 <= i < j < |ms| ==> ms[i].id < ms[j].id && ms[i].createdAt < ms[j].createdAt
  }

  /** A prefix of messages in creation order is in creation order. */
  lemma InCreationOrderPrefix(ms: seq<Message>, n: nat)
    requires InCreationOrder(ms) && n <= |ms|
    ensures InCreationOrder(ms[..n])
  {
  }

  /** The messages NOT in conversation `cid`, in their order: what a cascading delete keeps. */
  function MessagesNotOf(ms: seq<Message>, cid: int): (r: seq<Message>)
    ensures |r| <= |ms|
    ensures forall i :: 0 <= i < |r| ==> r[i].conversationId != cid && r[i] in ms
    ensures forall i :: 0 <= i < |ms| && ms[i].conversationId != cid ==> ms[i] in r
  {
    if |ms| == 0 then []
    else
      var r' := MessagesNotOf(ms[..|ms| - 1], cid);
      assert ms == ms[..|ms| - 1] + [ms[|ms| - 1]];
      if ms[|ms| - 1].conversationId != cid then r' + [ms[|ms| - 1]] else r'
  }

  /** Dropping one conversation's messages keeps the rest in creation order. */
  lemma {:induction false} MessagesNotOfInOrder(ms: seq<Message>, cid: int)
    requires InCreationOrder(ms)
    ensures InCreationOrder(MessagesNotOf(ms, cid))
  {
    if |ms| > 0 {
      var init := ms[..|ms| - 1];
      var last := ms[|ms| - 1];
      MessagesNotOfInOrder(init, cid);
      var r' := MessagesNotOf(init, cid);
      if last.conversationId != cid {
        var r := r' + [last];
        forall i, j | 0 <= i < j < |r|
          ensures r[i].id < r[j].id && r[i].createdAt < r[j].createdAt
        {
          if j == |r'| {
            var k :| 0 <= k < |init| && init[k] == r'[i];
            assert ms[k] == r[i];
          }
        }
      }
    }
  }

  /** Conversations in strictly increasing id order, as auto-increment creation keeps them. */
  ghost predicate IdsIncreasing(cs: seq<Conversation>) {
    forall i, j :: 0 <= i < j < |cs| ==> cs[i].id < cs[j].id
  }

  /** The conversations whose id is not `id`, in their order. */
  function ConversationsNot(cs: seq<Conversation>, id: int): (r: seq<Conversation>)
    ensures |r| <= |cs|
    ensures forall i :: 0 <= i < |r| ==> r[i].id != id && r[i] in cs
    ensures forall i :: 0 <= i < |cs| && cs[i].id != id ==> cs[i] in r
    ensures IdsIncreasing(cs) ==> IdsIncreasing(r)
  {
    if |cs| == 0 then []
    else
      var init := cs[..|cs| - 1];
      var last := cs[|cs| - 1];
      var r' := ConversationsNot(init, id);
      assert cs == init + [last];
      assert IdsIncreasing(cs) ==> IdsIncreasing(init) && (last.id != id ==> IdsIncreasing(r' + [last])) by {
        if IdsIncreasing(cs) {
          IdsIncreasingPrefix(cs, |cs| - 1);
          if last.id != id {
            IdsBelowLast(init, last, r');
          }
        }
      }
      if last.id != id then r' + [last] else r'
  }

  /** A prefix of an id-ordered table is id-ordered. */
  lemma IdsIncreasingPrefix(cs: seq<Conversation>, n: nat)
    requires IdsIncreasing(cs) && n <= |cs|
    ensures IdsIncreasing(cs[..n])
  {
  }

  /** In an id-ordered `init + [last]`, an id-ordered selection of `init` stays id-ordered when
      `last` is appended. */
  lemma IdsBelowLast(init: seq<Conversation>, last: Conversation, sub: seq<Conversation>)
    requires IdsIncreasing(init + [last]) && IdsIncreasing(sub)
    requires forall i :: 0 <= i < |sub| ==> sub[i] in init
    ensures IdsIncreasing(sub + [last])
  {
    forall i, j | 0 <= i < j < |sub + [last]|
      ensures (sub + [last])[i].id < (sub + [last])[j].id
    {
      if j == |sub| {
        var k :| 0 <= k < |init| && init[k] == sub[i];
        assert (init + [last])[k] == sub[i];
        assert (init + [last])[|init|] == last;
      }
    }
  }

  /** Number of messages conversation `cid` holds. */
  function CountOf(db: Db, cid: int): nat {
    |MessagesOf(db.messages, cid)|
  }

  /** The integrity the schema and the auto-increment counters maintain: ids are positive,
      below their counter and increasing in insertion order; every message belongs to an
      existing conversation; every timestamp lies in the past and messages are created in
      strictly increasing time. */
  ghost predicate Valid(db: Db) {
    && db.nextConversationId >= 1
    && db.nextMessageId >= 1
    && (forall i :: 0 <= i < |db.conversations| ==>
          1 <= db.conversations[i].id < db.nextConversationId && db.conversations[i].updatedAt < db.clock)
    && IdsIncreasing(db.conversations)
    && (forall i :: 0 <= i < |db.messages| ==>
          1 <= db.messages[i].id < db.nextMessageId && db.messages[i].createdAt < db.clock)
    && (forall i :: 0 <= i < |db.messages| ==> HasConversation(db, db.messages[i].conversationId))
    && InCreationOrder(db.messages)
  }

  /** Every conversation's `updatedAt` is at least the creation time of each of its messages. */
  ghost predicate TouchedAfterMessages(db: Db) {
    forall i :: 0 <= i < |db.messages| && HasConversation(db, db.messages[i].conversationId) ==>
      db.messages[i].createdAt <= ConversationOf(db, db.messages[i].conversationId).updatedAt
  }

  /** A valid store keeps its messages in creation order. */
  lemma ValidSorted(db: Db)
    requires Valid(db)
    ensures Sorting.SortedBy(db.messages, CreatedAt)
  {
  }

  lemma EmptyValid()
    ensures Valid(Empty()) && TouchedAfterMessages(Empty())
  {
  }
}
