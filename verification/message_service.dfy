/** The message service: saving a message (an insert followed by a separate touch of the
    owning conversation) and reading a conversation's messages in creation order.
    `up` says whether the database answers the call; when it does not, the call throws. */
module MessageService {
  import opened Wrappers
  import opened Store
  import Sorting

  /** `prisma.message.create`: the new row carries exactly the given fields, is stamped with the
      current clock and appended; a conversation id naming no row violates the foreign key. */
  function InsertMessage(db: Db, content: string, role: string, cid: int, up: bool): (r: Step<Message>)
    ensures r.result.Ok? <==> up && HasConversation(db, cid)
    ensures r.result.Err? ==> r.db == db
    ensures r.result.Ok? ==>
      var m := r.result.value;
      && m.content == content && m.role == role && m.conversationId == cid
      && m.createdAt == db.clock < r.db.clock
      && r.db.messages == db.messages + [m]
      && r.db.conversations == db.conversations
      && r.db.log == db.log + [MessageInserted(m.id, cid)]
    ensures Valid(db) ==> Valid(r.db)
  {
    if !up then Step(db, Err(Unavailable))
    else if !HasConversation(db, cid) then Step(db, Err(ForeignKeyViolation))
    else
      var m := Message(db.nextMessageId, content, role, cid, db.clock);
      Step(db.(messages := db.messages + [m],
               nextMessageId := db.nextMessageId + 1,
               clock := db.clock + 1,
               log := db.log + [MessageInserted(m.id, cid)]),
           Ok(m))
  }

  /** `prisma.conversation.update` of `updatedAt` to the current clock: only that field of that
      row changes; a missing row is NotFound. */
  function TouchConversation(db: Db, cid: int, up: bool): (r: Step<Conversation>)
    ensures r.result.Ok? <==> up && HasConversation(db, cid)
    ensures r.result.Err? ==> r.db == db
    ensures r.result.Ok? ==>
      && r.result.value == ConversationOf(db, cid).(updatedAt := db.clock)
      && HasConversation(r.db, cid) && ConversationOf(r.db, cid) == r.result.value
      && |r.db.conversations| == |db.conversations|
      && (Valid(db) ==> forall i :: 0 <= i < |db.conversations| ==>
            r.db.conversations[i] ==
              if db.conversations[i].id == cid then r.result.value else db.conversations[i])
      && r.db.messages == db.messages
      && r.db.clock > db.clock
      && r.db.log == db.log + [ConversationTouched(cid)]
    ensures Valid(db) ==> Valid(r.db)
  {
    if !up then Step(db, Err(Unavailable))
    else
      match IndexOf(db.conversations, cid)
      case None => Step(db, Err(NotFound))
      case Some(k) =>
        var c := db.conversations[k].(updatedAt := db.clock);
        var db' := db.(conversations := db.conversations[k := c],
                       clock := db.clock + 1,
                       log := db.log + [ConversationTouched(cid)]);
        IndexOfSameIds(db.conversations, db'.conversations, cid);
        assert Valid(db) ==> Valid(db') by {
          if Valid(db) {
            forall i | 0 <= i < |db'.messages|
              ensures HasConversation(db', db'.messages[i].conversationId)
            {
              var j := IndexOf(db.conversations, db.messages[i].conversationId).value;
              assert db'.conversations[j].id == db.messages[i].conversationId;
            }
          }
        }
        Step(db', Ok(c))
  }

  /** `saveMessage`: insert the message, then touch its conversation — two writes, not one
      transaction. On success the message carries exactly the given content, role and
      conversation, and the conversation's `updatedAt` is the save-time clock, which is at least
      the message's creation time and later than every other conversation's. When the touch
      alone fails the message is nevertheless stored. */
  function SaveMessage(db: Db, content: string, role: string, cid: int, insertUp: bool, touchUp: bool): (r: Step<Message>)
    ensures r.result.Ok? <==> insertUp && HasConversation(db, cid) && touchUp
    ensures !(insertUp && HasConversation(db, cid)) ==> r.db == db
    ensures insertUp && HasConversation(db, cid) ==>
      && |r.db.messages| == |db.messages| + 1
      && db.messages <= r.db.messages
      && var m := r.db.messages[|db.messages|];
         m.content == content && m.role == role && m.conversationId == cid
    ensures insertUp && HasConversation(db, cid) && !touchUp ==>
      r.db.conversations == db.conversations
    ensures r.result.Ok? ==>
      var m := r.result.value;
      && m.content == content && m.role == role && m.conversationId == cid
      && r.db.messages == db.messages + [m]
      && r.db.log == db.log + [MessageInserted(m.id, cid), ConversationTouched(cid)]
      && HasConversation(r.db, cid)
      && ConversationOf(r.db, cid).updatedAt > m.createdAt
      && ConversationOf(r.db, cid).title == ConversationOf(db, cid).title
      && (Valid(db) ==> forall i :: 0 <= i < |r.db.conversations| && r.db.conversations[i].id != cid ==>
            r.db.conversations[i].updatedAt < ConversationOf(r.db, cid).updatedAt)
    ensures Valid(db) ==> Valid(r.db)
  {
    var s1 := InsertMessage(db, content, role, cid, insertUp);
    if s1.result.Err? then s1
    else
      var s2 := TouchConversation(s1.db, cid, touchUp);
      if s2.result.Err? then Step(s2.db, Err(s2.result.error))
      else
        Step(s2.db, s1.result)
  }

  /** `getMessages`: the messages whose conversation is `cid`, ordered by creation time. A
      conversation without messages — or an id naming no conversation — gives the empty
      sequence, not an error. In a valid store this is exactly the insertion order. */
  function GetMessages(db: Db, cid: int, up: bool): (r: Result<seq<Message>, StoreError>)
    ensures r.Ok? <==> up
    ensures r.Ok? ==>
      && (forall i :: 0 <= i < |r.value| ==> r.value[i].conversationId == cid)
      && multiset(r.value) == multiset(MessagesOf(db.messages, cid))
      && Sorting.SortedBy(r.value, CreatedAt)
    ensures r.Ok? && Valid(db) ==> r.value == MessagesOf(db.messages, cid)
  {
    if !up then Err(Unavailable)
    else
      var mine := MessagesOf(db.messages, cid);
      var sorted := Sorting.SortBy(mine, CreatedAt);
      assert Valid(db) ==> sorted == mine by {
        if Valid(db) {
          ValidSorted(db);
          Sorting.SortSorted(mine, CreatedAt);
        }
      }
      SameRowsSameConversation(sorted, mine, cid);
      Ok(sorted)
  }

  /** A rearrangement of rows that all belong to conversation `cid` holds only rows of `cid`. */
  lemma SameRowsSameConversation(a: seq<Message>, b: seq<Message>, cid: int)
    requires multiset(a) == multiset(b)
    requires forall x :: x in b ==> x.conversationId == cid
    ensures forall i :: 0 <= i < |a| ==> a[i].conversationId == cid
  {
    forall i | 0 <= i < |a|
      ensures a[i].conversationId == cid
    {
      assert a[i] in multiset(b);
    }
  }
}
