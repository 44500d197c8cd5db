/** The conversation service: create with a default title, list newest first with a one-message
    preview, delete (cascading to the messages) and rename. `up` says whether the database
    answers the call; when it does not, the call throws. */
module ConversationService {
  import opened Wrappers
  import opened Store
  import Sorting
  import MessageService

  /** Title given to a conversation created without one. */
  const DefaultTitle := "Nouvelle discussion"

  /** `createConversation`: a new, empty conversation with the given title, or the default title
      when the title is absent or empty; it takes the next auto-increment id and the current time. */
  function CreateConversation(db: Db, title: Option<string>, up: bool): (r: Step<Conversation>)
    ensures r.result.Ok? <==> up
    ensures r.result.Err? ==> r.db == db
    ensures r.result.Ok? ==>
      var c := r.result.value;
      && (TruthyText(title) ==> c.title == title.value)
      && (!TruthyText(title) ==> c.title == DefaultTitle)
      && r.db.conversations == db.conversations + [c]
      && r.db.messages == db.messages
      && r.db.log == db.log + [ConversationInserted(c.id)]
      && HasConversation(r.db, c.id) && ConversationOf(r.db, c.id) == c
      && (Valid(db) ==> c.id >= 1 && !HasConversation(db, c.id) && CountOf(r.db, c.id) == 0)
    ensures Valid(db) ==> Valid(r.db)
  {
    if !up then Step(db, Err(Unavailable))
    else
      var c := Conversation(db.nextConversationId, if TruthyText(title) then title.value else DefaultTitle, db.clock);
      var db' := db.(conversations := db.conversations + [c],
                     nextConversationId := db.nextConversationId + 1,
                     clock := db.clock + 1,
                     log := db.log + [ConversationInserted(c.id)]);
      assert Valid(db) ==> Valid(db') by {
        if Valid(db) {
          forall i | 0 <= i < |db'.messages|
            ensures HasConversation(db', db'.messages[i].conversationId)
          {
            var j := IndexOf(db.conversations, db.messages[i].conversationId).value;
            assert db'.conversations[j] == db.conversations[j];
          }
        }
      }
      assert Valid(db) ==> CountOf(db', c.id) == 0 by {
        if Valid(db) {
          assert forall i :: 0 <= i < |db.messages| ==> db.messages[i].conversationId != c.id;
          NoMessagesOf(db.messages, c.id);
        }
      }
      Step(db', Ok(c))
  }

  /** The one-message preview a listed conversation carries: content and role only. */
  datatype Preview = Preview(content: string, role: string)

  /** A listed conversation. */
  datatype Summary = Summary(id: int, title: string, updatedAt: nat, preview: Option<Preview>)

  /** The message of conversation `cid` with the latest creation time, if it has any. */
  function Latest(ms: seq<Message>, cid: int): (r: Option<Message>)
    ensures r.None? <==> forall i :: 0 <= i < |ms| ==> ms[i].conversationId != cid
    ensures r.Some? ==>
      && r.value in ms && r.value.conversationId == cid
      && forall i :: 0 <= i < |ms| && ms[i].conversationId == cid ==> ms[i].createdAt <= r.value.createdAt
  {
    if |ms| == 0 then None
    else
      var init := ms[..|ms| - 1];
      var last := ms[|ms| - 1];
      var rest := Latest(init, cid);
      assert ms == init + [last];
      if last.conversationId != cid then rest
      else if rest.Some? && rest.value.createdAt > last.createdAt then rest
      else Some(last)
  }

  /** How conversation `c` is listed: its own fields and the preview of its latest message. */
  function SummaryOf(db: Db, c: Conversation): (r: Summary)
    ensures r.id == c.id && r.title == c.title && r.updatedAt == c.updatedAt
    ensures r.preview.None? <==> MessagesOf(db.messages, c.id) == []
    ensures r.preview.Some? ==>
      exists m :: m in db.messages && m.conversationId == c.id
        && r.preview.value == Preview(m.content, m.role)
        && forall i :: 0 <= i < |db.messages| && db.messages[i].conversationId == c.id ==>
             db.messages[i].createdAt <= m.createdAt
  {
    var latest := Latest(db.messages, c.id);
    var mine := MessagesOf(db.messages, c.id);
    assert latest.Some? ==> latest.value in mine;
    assert mine != [] ==> mine[0] in db.messages;
    Summary(c.id, c.title, c.updatedAt,
      if latest.None? then None else Some(Preview(latest.value.content, latest.value.role)))
  }

  /** Ordering key of listed conversations: latest `updatedAt` first. */
  function NewestFirst(s: Summary): int {
    -(s.updatedAt as int)
  }

  /** Every conversation as `SummaryOf` lists it, in table order. */
  function AllSummaries(db: Db): (r: seq<Summary>)
    ensures |r| == |db.conversations|
    ensures forall k :: 0 <= k < |r| ==> r[k] == SummaryOf(db, db.conversations[k])
  {
    seq(|db.conversations|, k requires 0 <= k < |db.conversations| => SummaryOf(db, db.conversations[k]))
  }

  /** `getConversations`: every conversation exactly once, as `SummaryOf` lists it, ordered by
      `updatedAt`, most recent first. */
  function GetConversations(db: Db, up: bool): (r: Result<seq<Summary>, StoreError>)
    ensures r.Ok? <==> up
    ensures r.Ok? ==>
      && multiset(r.value) == multiset(AllSummaries(db))
      && forall i, j :: 0 <= i < j < |r.value| ==> r.value[i].updatedAt >= r.value[j].updatedAt
  {
    if !up then Err(Unavailable)
    else
      var sorted := Sorting.SortBy(AllSummaries(db), NewestFirst);
      assert forall i, j :: 0 <= i < j < |sorted| ==> NewestFirst(sorted[i]) <= NewestFirst(sorted[j]);
      Ok(sorted)
  }

  /** The store after deleting conversation `id` and, by cascade, its messages. */
  function Cascade(db: Db, id: int): Db {
    db.(conversations := ConversationsNot(db.conversations, id),
        messages := MessagesNotOf(db.messages, id),
        log := db.log + [ConversationDeleted(id)])
  }

  /** The cascade leaves no message without its conversation. */
  lemma CascadeValid(db: Db, id: int)
    requires Valid(db)
    ensures Valid(Cascade(db, id))
  {
    MessagesNotOfInOrder(db.messages, id);
    ConversationsNotBounded(db.conversations, id, db.nextConversationId, db.clock);
    MessagesNotOfBounded(db.messages, id, db.nextMessageId, db.clock);
    CascadeKeepsOwners(db, id);
  }

  /** Conversations whose ids lie below `next` and whose times lie before `clock` still do after
      one is removed. */
  lemma ConversationsNotBounded(cs: seq<Conversation>, id: int, next: int, clock: nat)
    requires forall i :: 0 <= i < |cs| ==> 1 <= cs[i].id < next && cs[i].updatedAt < clock
    ensures var r := ConversationsNot(cs, id);
            forall i :: 0 <= i < |r| ==> 1 <= r[i].id < next && r[i].updatedAt < clock
  {
    var r := ConversationsNot(cs, id);
    forall i | 0 <= i < |r|
      ensures 1 <= r[i].id < next && r[i].updatedAt < clock
    {
      var k :| 0 <= k < |cs| && cs[k] == r[i];
    }
  }

  /** Messages whose ids lie below `next` and whose times lie before `clock` still do after one
      conversation's are removed. */
  lemma MessagesNotOfBounded(ms: seq<Message>, id: int, next: int, clock: nat)
    requires forall i :: 0 <= i < |ms| ==> 1 <= ms[i].id < next && ms[i].createdAt < clock
    ensures var r := MessagesNotOf(ms, id);
            forall i :: 0 <= i < |r| ==> 1 <= r[i].id < next && r[i].createdAt < clock
  {
    var r := MessagesNotOf(ms, id);
    forall i | 0 <= i < |r|
      ensures 1 <= r[i].id < next && r[i].createdAt < clock
    {
      var k :| 0 <= k < |ms| && ms[k] == r[i];
    }
  }

  /** Every message the cascade keeps still has its conversation. */
  lemma CascadeKeepsOwners(db: Db, id: int)
    requires forall i :: 0 <= i < |db.messages| ==> HasConversation(db, db.messages[i].conversationId)
    ensures var db' := Cascade(db, id);
            forall i :: 0 <= i < |db'.messages| ==> HasConversation(db', db'.messages[i].conversationId)
  {
    var db' := Cascade(db, id);
    forall i | 0 <= i < |db'.messages|
      ensures HasConversation(db', db'.messages[i].conversationId)
    {
      var m := db'.messages[i];
      var k :| 0 <= k < |db.messages| && db.messages[k] == m;
      assert HasConversation(db, m.conversationId);
      var j := IndexOf(db.conversations, m.conversationId).value;
      var p :| 0 <= p < |db'.conversations| && db'.conversations[p] == db.conversations[j];
      assert db'.conversations[p].id == m.conversationId;
    }
  }

  /** `deleteConversation`: removes the conversation and, by the schema's cascade, all of its
      messages; every other conversation and message stays; a missing id is NotFound. */
  function DeleteConversation(db: Db, id: int, up: bool): (r: Step<Conversation>)
    ensures r.result.Ok? <==> up && HasConversation(db, id)
    ensures r.result.Err? ==> r.db == db
    ensures r.result.Ok? ==>
      && r.result.value == ConversationOf(db, id)
      && !HasConversation(r.db, id)
      && CountOf(r.db, id) == 0
      && (forall i :: 0 <= i < |db.conversations| && db.conversations[i].id != id ==> db.conversations[i] in r.db.conversations)
      && (forall i :: 0 <= i < |r.db.conversations| ==> r.db.conversations[i] in db.conversations)
      && (forall i :: 0 <= i < |db.messages| && db.messages[i].conversationId != id ==> db.messages[i] in r.db.messages)
      && (forall i :: 0 <= i < |r.db.messages| ==> r.db.messages[i] in db.messages)
      && r.db.log == db.log + [ConversationDeleted(id)]
    ensures Valid(db) ==> Valid(r.db)
  {
    if !up then Step(db, Err(Unavailable))
    else if !HasConversation(db, id) then Step(db, Err(NotFound))
    else
      var db' := Cascade(db, id);
      NoMessagesOf(db'.messages, id);
      assert Valid(db) ==> Valid(db') by {
        if Valid(db) {
          CascadeValid(db, id);
        }
      }
      Step(db', Ok(ConversationOf(db, id)))
  }

  /** `updateConversationTitle`: only the title of the targeted conversation changes; a missing
      id is NotFound. */
  function UpdateConversationTitle(db: Db, id: int, title: string, up: bool): (r: Step<Conversation>)
    ensures r.result.Ok? <==> up && HasConversation(db, id)
    ensures r.result.Err? ==> r.db == db
    ensures r.result.Ok? ==>
      && r.result.value == ConversationOf(db, id).(title := title)
      && HasConversation(r.db, id) && ConversationOf(r.db, id) == r.result.value
      && |r.db.conversations| == |db.conversations|
      && (Valid(db) ==> forall i :: 0 <= i < |db.conversations| ==>
            r.db.conversations[i] ==
              if db.conversations[i].id == id then r.result.value else db.conversations[i])
      && r.db.messages == db.messages
      && r.db.log == db.log + [TitleSet(id, title)]
    ensures Valid(db) ==> Valid(r.db)
  {
    if !up then Step(db, Err(Unavailable))
    else
      match IndexOf(db.conversations, id)
      case None => Step(db, Err(NotFound))
      case Some(k) =>
        var c := db.conversations[k].(title := title);
        var db' := db.(conversations := db.conversations[k := c],
                       log := db.log + [TitleSet(id, title)]);
        IndexOfSameIds(db.conversations, db'.conversations, id);
        assert Valid(db) ==> Valid(db') by {
          if Valid(db) {
            forall i | 0 <= i < |db'.messages|
              ensures HasConversation(db', db'.messages[i].conversationId)
            {
              var j := IndexOf(db.conversations, db.messages[i].conversationId).value;
              assert db'.conversations[j].id == db.messages[i].conversationId;
            }
          }
        }
        Step(db', Ok(c))
  }
}
