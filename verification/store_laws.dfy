/** Properties relating several calls of the persistence layer. */
module StoreLaws {
  import opened Wrappers
  import opened Store
  import Sorting
  import MessageService
  import opened ConversationService

  /** Saving a message moves its conversation to the head of the list: its `updatedAt` is
      strictly later than every other conversation's. */
  lemma SavedConversationListedFirst(db: Db, content: string, role: string, cid: int)
    requires Valid(db) && HasConversation(db, cid)
    ensures var s := MessageService.SaveMessage(db, content, role, cid, true, true);
            var l := GetConversations(s.db, true).value;
            |l| > 0 && l[0].id == cid
  {
    var s := MessageService.SaveMessage(db, content, role, cid, true, true);
    NewestListedFirst(s.db, cid);
  }

  /** A conversation updated strictly later than every other one is listed first. */
  lemma NewestListedFirst(db: Db, cid: int)
    requires HasConversation(db, cid)
    requires forall i :: 0 <= i < |db.conversations| && db.conversations[i].id != cid ==>
               db.conversations[i].updatedAt < ConversationOf(db, cid).updatedAt
    ensures var l := GetConversations(db, true).value;
            |l| > 0 && l[0].id == cid
  {
    var l := GetConversations(db, true).value;
    var all := AllSummaries(db);
    var k := IndexOf(db.conversations, cid).value;
    assert all[k] in multiset(l);
    var p :| 0 <= p < |l| && l[p] == all[k];
    assert l[0].updatedAt >= all[k].updatedAt;
    assert l[0] in multiset(all);
    var j :| 0 <= j < |all| && all[j] == l[0];
    assert l[0].id == db.conversations[j].id;
  }

  /** The last element of `s`, if any. */
  function LastOf(s: seq<Message>): Option<Message> {
    if |s| == 0 then None else Some(s[|s| - 1])
  }

  /** With messages in creation order, the latest message of a conversation is the last one
      of its messages. */
  lemma {:induction false} LatestIsLastOf(ms: seq<Message>, cid: int)
    requires InCreationOrder(ms)
    ensures Latest(ms, cid) == LastOf(MessagesOf(ms, cid))
  {
    if |ms| > 0 {
      var init := ms[..|ms| - 1];
      var last := ms[|ms| - 1];
      InCreationOrderPrefix(ms, |ms| - 1);
      LatestIsLastOf(init, cid);
      LatestOfNewest(ms, cid);
      MessagesOfSnoc(ms, cid);
      LastOfChoice(MessagesOf(init, cid), last, last.conversationId == cid);
    }
  }

  /** Appending `x` when `take` makes it the last element; otherwise the last element stays. */
  lemma LastOfChoice(s: seq<Message>, x: Message, take: bool)
    ensures LastOf(if take then s + [x] else s) == if take then Some(x) else LastOf(s)
  {
  }

  /** The messages of a conversation in a non-empty table are those of all rows but the newest,
      followed by the newest when it belongs to that conversation. */
  lemma MessagesOfSnoc(ms: seq<Message>, cid: int)
    requires |ms| > 0
    ensures MessagesOf(ms, cid) ==
      if ms[|ms| - 1].conversationId == cid then MessagesOf(ms[..|ms| - 1], cid) + [ms[|ms| - 1]]
      else MessagesOf(ms[..|ms| - 1], cid)
  {
  }

  /** With messages in creation order, the newest row is the latest of its conversation; any
      other conversation keeps the latest it had. */
  lemma LatestOfNewest(ms: seq<Message>, cid: int)
    requires InCreationOrder(ms) && |ms| > 0
    ensures var init := ms[..|ms| - 1];
            var last := ms[|ms| - 1];
            Latest(ms, cid) == if last.conversationId == cid then Some(last) else Latest(init, cid)
  {
    var init := ms[..|ms| - 1];
    var last := ms[|ms| - 1];
    var rest := Latest(init, cid);
    if last.conversationId == cid && rest.Some? {
      var i :| 0 <= i < |init| && init[i] == rest.value;
      assert ms[i].createdAt < ms[|ms| - 1].createdAt;
    }
  }

  /** In a valid store the preview of a listed conversation is the content and role of the last
      message `getMessages` returns for it, and there is none exactly when it has no messages. */
  lemma PreviewIsLastMessage(db: Db, c: Conversation)
    requires Valid(db)
    ensures var mine := MessagesOf(db.messages, c.id);
            SummaryOf(db, c).preview ==
              if mine == [] then None
              else Some(Preview(mine[|mine| - 1].content, mine[|mine| - 1].role))
  {
    LatestIsLastOf(db.messages, c.id);
  }

  /** A conversation that was just created lists no messages: an empty sequence, not an error. */
  lemma NewConversationHasNoMessages(db: Db, title: Option<string>)
    requires Valid(db)
    ensures var s := CreateConversation(db, title, true);
            MessageService.GetMessages(s.db, s.result.value.id, true) == Ok([])
  {
  }

  /** After a delete, reading the deleted conversation's messages gives the empty sequence. */
  lemma DeletedConversationHasNoMessages(db: Db, id: int)
    requires HasConversation(db, id)
    ensures var s := DeleteConversation(db, id, true);
            MessageService.GetMessages(s.db, id, true) == Ok([])
  {
  }

  /** A fully completed save keeps every conversation's `updatedAt` at or after the creation
      time of each of its messages. */
  lemma SaveKeepsTouched(db: Db, content: string, role: string, cid: int)
    requires Valid(db) && TouchedAfterMessages(db) && HasConversation(db, cid)
    ensures TouchedAfterMessages(MessageService.SaveMessage(db, content, role, cid, true, true).db)
  {
    var s1 := MessageService.InsertMessage(db, content, role, cid, true);
    var s2 := MessageService.TouchConversation(s1.db, cid, true);
    assert s2.db == MessageService.SaveMessage(db, content, role, cid, true, true).db;
    TouchedAfterAppend(db, s2.db, s1.result.value, ConversationOf(db, cid).(updatedAt := s1.db.clock));
  }

  /** Appending a message of conversation `c.id` created before `c.updatedAt`, and replacing that
      conversation's row by `c`, keeps every conversation touched after its messages. */
  lemma TouchedAfterAppend(db: Db, db': Db, m: Message, c: Conversation)
    requires Valid(db) && TouchedAfterMessages(db) && HasConversation(db, c.id)
    requires m.conversationId == c.id && m.createdAt <= c.updatedAt && db.clock <= c.updatedAt
    requires db'.messages == db.messages + [m]
    requires |db'.conversations| == |db.conversations|
    requires forall i :: 0 <= i < |db.conversations| ==>
               db'.conversations[i] == if db.conversations[i].id == c.id then c else db.conversations[i]
    ensures TouchedAfterMessages(db')
  {
    forall i | 0 <= i < |db.conversations|
      ensures db'.conversations[i].id == db.conversations[i].id
    {
    }
    forall i | 0 <= i < |db'.messages| && HasConversation(db', db'.messages[i].conversationId)
      ensures db'.messages[i].createdAt <= ConversationOf(db', db'.messages[i].conversationId).updatedAt
    {
      var x := db'.messages[i];
      IndexOfSameIds(db.conversations, db'.conversations, x.conversationId);
      var k := IndexOf(db.conversations, x.conversationId).value;
      if i < |db.messages| {
        assert x == db.messages[i];
      }
    }
  }

  /** The two writes of a save are not one transaction: when the touch fails after the insert,
      the store keeps a message newer than its conversation's `updatedAt`. */
  lemma TouchFailureLeavesStaleConversation(db: Db, content: string, role: string, cid: int)
    requires Valid(db) && HasConversation(db, cid)
    ensures var s := MessageService.SaveMessage(db, content, role, cid, true, false);
            s.result.Err? && |s.db.messages| == |db.messages| + 1 && !TouchedAfterMessages(s.db)
  {
    var s := MessageService.SaveMessage(db, content, role, cid, true, false);
    var m := s.db.messages[|db.messages|];
    var k := IndexOf(db.conversations, cid).value;
    assert db.conversations[k].updatedAt < db.clock == m.createdAt;
  }
}
