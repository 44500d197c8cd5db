/** The chat endpoint. `POST` runs one turn: validate, save the trimmed user message, read the
    history, ask the gateway, save the reply, and rename the conversation on its first turn.
    `GET` lists a conversation's messages. */
module ChatRoute {
  import opened Wrappers
  import opened Store
  import Text
  import Decimal
  import MessageService
  import ConversationService
  import AiService

  const TitleLength := 40
  const Ellipsis := "..."
  const ErrEmptyMessage := "Le message ne peut pas être vide."
  const ErrMissingId := "ID de conversation requis."
  const ErrTurn := "Erreur lors du traitement du message."
  const ErrHistory := "Erreur lors de la récupération des messages."

  /** The JSON body of `POST`: both fields may be missing. */
  datatype ChatBody = ChatBody(message: Option<string>, conversationId: Option<int>)

  /** Which store call of the request throws (connection lost), counted from 0 in call order:
      user insert, user touch, history read, reply insert, reply touch, rename. */
  datatype DbFault = NoFault | FailAt(call: nat)

  /** The database answers store call number `call`. */
  predicate Up(fault: DbFault, call: nat) {
    fault != FailAt(call)
  }

  /** An HTTP response of this endpoint. */
  datatype Response =
    | Turn(userMessage: Message, aiMessage: Message)
    | Messages(messages: seq<Message>)
    | Failure(status: int, error: string)

  /** The outcome of one `POST`: the store and the client slot afterwards, the request sent to
      the gateway if one was, and the response. */
  datatype PostResult = PostResult(db: Db, slot: Option<AiService.Client>, sent: Option<AiService.Request>, response: Response)

  function Min(a: int, b: int): int {
    if a <= b then a else b
  }

  /** The title of a conversation renamed after its first message: the trimmed message cut to 40
      characters, followed by "..." exactly when something was cut. */
  function DeriveTitle(message: string): (t: string)
    ensures var m := Text.Trim(message);
      && Min(|m|, TitleLength) <= |t| <= TitleLength + |Ellipsis|
      && t[..Min(|m|, TitleLength)] == m[..Min(|m|, TitleLength)]
      && (|m| <= TitleLength ==> t == m)
      && (|m| > TitleLength ==> |t| == TitleLength + |Ellipsis| && t[TitleLength..] == Ellipsis)
      && (t == "" <==> Text.IsBlank(message))
  {
    var m := Text.Trim(message);
    m[..Min(|m|, TitleLength)] + (if |m| > TitleLength then Ellipsis else "")
  }

  /** The role/content projection of stored messages the gateway receives. */
  function Project(ms: seq<Message>): (r: seq<AiService.ChatEntry>)
    ensures |r| == |ms|
    ensures forall i :: 0 <= i < |ms| ==> r[i] == AiService.ChatEntry(ms[i].role, ms[i].content)
  {
    seq(|ms|, i requires 0 <= i < |ms| => AiService.ChatEntry(ms[i].role, ms[i].content))
  }

  /** The body passes both checks of `POST`: a message that is not blank, then a truthy id. */
  predicate Accepted(body: ChatBody) {
    && TruthyText(body.message) && !Text.IsBlank(body.message.value)
    && Truthy(body.conversationId)
  }

  /** The writes that follow the user message's save in a completed turn, in order: insert and
      touch for the reply, then the rename on a first turn. */
  function TurnWrites(a: Message, cid: int, title: Option<string>): seq<Write> {
    [MessageInserted(a.id, cid), ConversationTouched(cid)]
    + (if title.Some? then [TitleSet(cid, title.value)] else [])
  }

  /** The last step of a turn: on a first turn (history of at most one message) rename the
      conversation after the user's message. */
  function Rename(db: Db, u: Message, a: Message, message: string, cid: int, first: bool, fault: DbFault): (r: (Db, Response))
    ensures !first ==> r == (db, Turn(u, a))
    ensures first && r.1.Turn? ==>
      && r.0.messages == db.messages
      && r.0.log == db.log + [TitleSet(cid, DeriveTitle(message))]
      && HasConversation(r.0, cid) && ConversationOf(r.0, cid).title == DeriveTitle(message)
    ensures first && !r.1.Turn? ==> r.0 == db
    ensures r.1.Turn? ==> r.1 == Turn(u, a)
    ensures r.1.Turn? || r.1 == Failure(500, ErrTurn)
    ensures Valid(db) ==> Valid(r.0)
  {
    if !first then (db, Turn(u, a))
    else
      var s := ConversationService.UpdateConversationTitle(db, cid, DeriveTitle(message), Up(fault, 5));
      if s.result.Err? then (s.db, Failure(500, ErrTurn)) else (s.db, Turn(u, a))
  }

  /** Save the gateway's reply, then rename on a first turn. */
  function SaveReply(db: Db, u: Message, reply: string, message: string, cid: int, first: bool, fault: DbFault): (r: (Db, Response))
    ensures r.1.Turn? ==>
      var a := r.1.aiMessage;
      && HasConversation(db, cid)
      && r.1.userMessage == u
      && a.content == reply && a.role == "assistant" && a.conversationId == cid
      && r.0.messages == db.messages + [a]
      && r.0.log == db.log + TurnWrites(a, cid, if first then Some(DeriveTitle(message)) else None)
      && HasConversation(r.0, cid)
      && ConversationOf(r.0, cid).title == if first then DeriveTitle(message) else ConversationOf(db, cid).title
    ensures r.1.Turn? || r.1 == Failure(500, ErrTurn)
    ensures db.messages <= r.0.messages
    ensures Valid(db) ==> Valid(r.0)
  {
    var s := MessageService.SaveMessage(db, reply, "assistant", cid, Up(fault, 3), Up(fault, 4));
    if s.result.Err? then (s.db, Failure(500, ErrTurn))
    else
      var a := s.result.value;
      var r := Rename(s.db, u, a, message, cid, first, fault);
      RenameAfterReply(db, s.db, a, r, u, message, cid, first);
      r
  }

  /** The store `saved` holds the reply `a` appended to `db` and the two writes that saved it;
      `r` is the outcome of the rename step on `saved`. A completed turn then holds exactly `a`
      more than `db`, logs the reply's writes followed by the rename on a first turn, and carries
      the derived title exactly on a first turn. */
  lemma RenameAfterReply(db: Db, saved: Db, a: Message, r: (Db, Response), u: Message, message: string,
                         cid: int, first: bool)
    requires saved.messages == db.messages + [a]
    requires saved.log == db.log + [MessageInserted(a.id, cid), ConversationTouched(cid)]
    requires HasConversation(db, cid) && HasConversation(saved, cid)
    requires ConversationOf(saved, cid).title == ConversationOf(db, cid).title
    requires !first ==> r == (saved, Turn(u, a))
    requires first && r.1.Turn? ==>
      && r.0.messages == saved.messages
      && r.0.log == saved.log + [TitleSet(cid, DeriveTitle(message))]
      && HasConversation(r.0, cid) && ConversationOf(r.0, cid).title == DeriveTitle(message)
    requires first && !r.1.Turn? ==> r.0 == saved
    ensures r.1.Turn? ==>
      && r.0.messages == db.messages + [a]
      && r.0.log == db.log + TurnWrites(a, cid, if first then Some(DeriveTitle(message)) else None)
      && HasConversation(r.0, cid)
      && ConversationOf(r.0, cid).title == if first then DeriveTitle(message) else ConversationOf(db, cid).title
    ensures db.messages <= r.0.messages
  {
  }

  /** The turn after the user message `u` is saved: read the history, ask the gateway with it,
      save the reply, rename when the history held at most the user message. */
  function Respond(db: Db, u: Message, message: string, cid: int, slot: Option<AiService.Client>,
                   apiKey: Option<string>, provider: AiService.Provider, fault: DbFault): (r: PostResult)
    ensures r.response.Turn? ==>
      var a := r.response.aiMessage;
      && HasConversation(db, cid)
      && r.response.userMessage == u
      && a.role == "assistant" && a.conversationId == cid && a.content != ""
      && r.db.messages == db.messages + [a]
      && (Valid(db) ==>
            && r.sent == Some(AiService.BuildRequest(Project(MessagesOf(db.messages, cid))))
            && var first := CountOf(db, cid) <= 1;
               && r.db.log == db.log + TurnWrites(a, cid, if first then Some(DeriveTitle(message)) else None)
               && HasConversation(r.db, cid)
               && ConversationOf(r.db, cid).title ==
                    if first then DeriveTitle(message) else ConversationOf(db, cid).title)
    ensures r.response.Turn? || r.response == Failure(500, ErrTurn)
    ensures db.messages <= r.db.messages
    ensures Valid(db) ==> Valid(r.db)
  {
    match MessageService.GetMessages(db, cid, Up(fault, 2))
    case Err(_) => PostResult(db, slot, None, Failure(500, ErrTurn))
    case Ok(history) =>
      var chatHistory := Project(history);
      var call := AiService.GetAIResponse(slot, apiKey, chatHistory, provider);
      if call.reply.Err? then PostResult(db, call.slot, call.sent, Failure(500, ErrTurn))
      else
        var (db', response) := SaveReply(db, u, call.reply.value, message, cid, |history| <= 1, fault);
        PostResult(db', call.slot, call.sent, response)
  }

  /** The turn proper, after validation: save the trimmed user message, then respond. Each
      failure is a 500 and keeps what was written before it. */
  function RunTurn(db: Db, message: string, cid: int, slot: Option<AiService.Client>, apiKey: Option<string>,
                   provider: AiService.Provider, fault: DbFault): (r: PostResult)
    ensures !(Up(fault, 0) && HasConversation(db, cid)) ==> r.db == db && r.response == Failure(500, ErrTurn) && r.sent.None?
    ensures Up(fault, 0) && HasConversation(db, cid) ==>
      && |r.db.messages| > |db.messages|
      && db.messages <= r.db.messages
      && var u := r.db.messages[|db.messages|];
         u.content == Text.Trim(message) && u.role == "user" && u.conversationId == cid
    ensures r.response.Turn? ==>
      var u := r.response.userMessage;
      var a := r.response.aiMessage;
      && u.content == Text.Trim(message) && u.role == "user" && u.conversationId == cid
      && a.role == "assistant" && a.conversationId == cid && a.content != ""
      && r.db.messages == db.messages + [u, a]
    ensures r.response.Turn? || r.response == Failure(500, ErrTurn)
    ensures Valid(db) ==> Valid(r.db)
    ensures Valid(db) && r.response.Turn? ==>
      var u := r.response.userMessage;
      var first := CountOf(db, cid) == 0;
      && r.sent == Some(AiService.BuildRequest(Project(MessagesOf(db.messages, cid) + [u])))
      && r.db.log == db.log + [MessageInserted(u.id, cid), ConversationTouched(cid)]
                     + TurnWrites(r.response.aiMessage, cid, if first then Some(DeriveTitle(message)) else None)
      && HasConversation(db, cid) && HasConversation(r.db, cid)
      && ConversationOf(r.db, cid).title == if first then DeriveTitle(message) else ConversationOf(db, cid).title
  {
    var s1 := MessageService.SaveMessage(db, Text.Trim(message), "user", cid, Up(fault, 0), Up(fault, 1));
    if s1.result.Err? then PostResult(s1.db, slot, None, Failure(500, ErrTurn))
    else
      var u := s1.result.value;
      var r := AfterUserMessage(db, s1.db, u, message, cid, slot, apiKey, provider, fault);
      assert Valid(db) ==> Valid(s1.db) && (r.response.Turn? ==> HasConversation(db, cid));
      RespondAfterSave(db, s1.db, u, r, message, cid);
      r
  }

  /** The turn once `saved` holds the rows of `db` followed by the user message `u`: respond,
      keeping `u` and every earlier row in place. */
  function AfterUserMessage(db: Db, saved: Db, u: Message, message: string, cid: int, slot: Option<AiService.Client>,
                            apiKey: Option<string>, provider: AiService.Provider, fault: DbFault): (r: PostResult)
    requires saved.messages == db.messages + [u]
    ensures db.messages + [u] <= r.db.messages
    ensures r.response.Turn? ==>
      var a := r.response.aiMessage;
      && r.response.userMessage == u
      && a.role == "assistant" && a.conversationId == cid && a.content != ""
      && r.db.messages == db.messages + [u, a]
    ensures r.response.Turn? || r.response == Failure(500, ErrTurn)
    ensures Valid(saved) ==> Valid(r.db)
  {
    var r := Respond(saved, u, message, cid, slot, apiKey, provider, fault);
    assert r.response.Turn? ==> r.db.messages == db.messages + [u, r.response.aiMessage] by {
      if r.response.Turn? {
        AppendPair(db.messages, u, r.response.aiMessage);
      }
    }
    r
  }

  /** Appending two rows one after the other appends the pair. */
  lemma AppendPair(ms: seq<Message>, u: Message, a: Message)
    ensures ms + [u] + [a] == ms + [u, a]
  {
  }

  /** The store `saved` holds the user message `u` appended to `db` and the two writes that saved
      it; `r` is what responding on `saved` gave. Seen from `db`, the gateway then received the
      conversation's earlier messages followed by `u`, and "history of at most one message" means
      "no message before the turn". */
  lemma RespondAfterSave(db: Db, saved: Db, u: Message, r: PostResult, message: string, cid: int)
    requires saved.messages == db.messages + [u] && u.conversationId == cid
    requires saved.log == db.log + [MessageInserted(u.id, cid), ConversationTouched(cid)]
    requires HasConversation(db, cid) && HasConversation(saved, cid)
    requires ConversationOf(saved, cid).title == ConversationOf(db, cid).title
    requires Valid(saved) && r.response.Turn? ==>
      && r.response.userMessage == u
      && r.sent == Some(AiService.BuildRequest(Project(MessagesOf(saved.messages, cid))))
      && var first := CountOf(saved, cid) <= 1;
         && r.db.log == saved.log + TurnWrites(r.response.aiMessage, cid, if first then Some(DeriveTitle(message)) else None)
         && HasConversation(r.db, cid)
         && ConversationOf(r.db, cid).title == if first then DeriveTitle(message) else ConversationOf(saved, cid).title
    ensures Valid(saved) && r.response.Turn? ==>
      var first := CountOf(db, cid) == 0;
      && r.sent == Some(AiService.BuildRequest(Project(MessagesOf(db.messages, cid) + [u])))
      && r.db.log == db.log + [MessageInserted(u.id, cid), ConversationTouched(cid)]
                     + TurnWrites(r.response.aiMessage, cid, if first then Some(DeriveTitle(message)) else None)
      && HasConversation(r.db, cid)
      && ConversationOf(r.db, cid).title == if first then DeriveTitle(message) else ConversationOf(db, cid).title
  {
    MessagesOfAppend(db.messages, u, cid);
  }

  /** A client posting `messages` one after another to conversation `cid` without faults,
      stopping at the first turn that does not complete: the store and client slot afterwards
      and how many turns completed. */
  function Session(db: Db, messages: seq<string>, cid: int, slot: Option<AiService.Client>,
                   apiKey: Option<string>, provider: AiService.Provider): (r: SessionResult)
    ensures r.completed <= |messages|
    ensures messages == [] ==> r == SessionResult(db, slot, 0)
    decreases |messages|
  {
    if messages == [] then SessionResult(db, slot, 0)
    else
      var t := RunTurn(db, messages[0], cid, slot, apiKey, provider, NoFault);
      if !t.response.Turn? then SessionResult(t.db, t.slot, 0)
      else
        var rest := Session(t.db, messages[1..], cid, t.slot, apiKey, provider);
        rest.(completed := rest.completed + 1)
  }

  datatype SessionResult = SessionResult(db: Db, slot: Option<AiService.Client>, completed: nat)

  /** When every turn of a session completes, the conversation gains two messages per turn and
      its title is renamed after the first message if it had no messages before, and otherwise
      kept: no later turn renames it, its history holding at least three messages. */
  lemma {:induction false} SessionRenamesOnlyFirst(db: Db, messages: seq<string>, cid: int,
                                                   slot: Option<AiService.Client>, apiKey: Option<string>,
                                                   provider: AiService.Provider)
    requires Valid(db)
    ensures var r := Session(db, messages, cid, slot, apiKey, provider);
      r.completed == |messages| ==>
        && Valid(r.db)
        && CountOf(r.db, cid) == CountOf(db, cid) + 2 * |messages|
        && (|messages| > 0 ==>
              && HasConversation(db, cid) && HasConversation(r.db, cid)
              && ConversationOf(r.db, cid).title ==
                   if CountOf(db, cid) == 0 then DeriveTitle(messages[0]) else ConversationOf(db, cid).title)
    decreases |messages|
  {
    if messages != [] {
      var t := RunTurn(db, messages[0], cid, slot, apiKey, provider, NoFault);
      if t.response.Turn? {
        TurnOutcome(db, messages[0], cid, slot, apiKey, provider, NoFault);
        SessionRenamesOnlyFirst(t.db, messages[1..], cid, t.slot, apiKey, provider);
      }
    }
  }

  /** On a valid store a completed turn leaves a valid store in which its conversation holds two
      more messages and carries the title derived from the message exactly when it had none. */
  lemma TurnOutcome(db: Db, message: string, cid: int, slot: Option<AiService.Client>, apiKey: Option<string>,
                    provider: AiService.Provider, fault: DbFault)
    requires Valid(db)
    ensures var r := RunTurn(db, message, cid, slot, apiKey, provider, fault);
      r.response.Turn? ==>
        && Valid(r.db)
        && CountOf(r.db, cid) == CountOf(db, cid) + 2
        && HasConversation(db, cid) && HasConversation(r.db, cid)
        && ConversationOf(r.db, cid).title ==
             if CountOf(db, cid) == 0 then DeriveTitle(message) else ConversationOf(db, cid).title
  {
    TurnAddsTwo(db, message, cid, slot, apiKey, provider, fault);
  }

  /** Without a stored client and without a key the gateway cannot be reached: the turn answers
      500 after the user message is saved, sends nothing and leaves the client slot empty, so a
      later turn, once the key is set, creates the client. */
  lemma MissingKeyFailsTurn(db: Db, message: string, cid: int, provider: AiService.Provider, fault: DbFault)
    ensures var r := RunTurn(db, message, cid, None, None, provider, fault);
            r.response == Failure(500, ErrTurn) && r.sent.None? && r.slot.None?
  {
  }

  /** A completed turn adds exactly two messages to its conversation. */
  lemma TurnAddsTwo(db: Db, message: string, cid: int, slot: Option<AiService.Client>, apiKey: Option<string>,
                    provider: AiService.Provider, fault: DbFault)
    ensures var r := RunTurn(db, message, cid, slot, apiKey, provider, fault);
            r.response.Turn? ==> CountOf(r.db, cid) == CountOf(db, cid) + 2
  {
    var r := RunTurn(db, message, cid, slot, apiKey, provider, fault);
    if r.response.Turn? {
      var u, a := r.response.userMessage, r.response.aiMessage;
      MessagesOfAppend(db.messages, u, cid);
      MessagesOfAppend(db.messages + [u], a, cid);
      AppendPair(db.messages, u, a);
    }
  }

  /** `POST /api/chat`. A body that is not JSON throws (500). A missing or blank message is
      rejected with 400 before the id is looked at; then a falsy id is rejected with 400; neither
      rejection writes anything or calls the gateway. Any failure after validation is a 500 that
      leaves in place whatever was already written: in particular the user message once saved. */
  function PostChat(db: Db, body: Option<ChatBody>, slot: Option<AiService.Client>, apiKey: Option<string>,
                    provider: AiService.Provider, fault: DbFault): (r: PostResult)
    ensures body.None? ==> r == PostResult(db, slot, None, Failure(500, ErrTurn))
    ensures body.Some? && !(TruthyText(body.value.message) && !Text.IsBlank(body.value.message.value)) ==>
      r == PostResult(db, slot, None, Failure(400, ErrEmptyMessage))
    ensures body.Some? && TruthyText(body.value.message) && !Text.IsBlank(body.value.message.value)
                       && !Truthy(body.value.conversationId) ==>
      r == PostResult(db, slot, None, Failure(400, ErrMissingId))
    ensures r.response.Turn? || (r.response.Failure? && r.response.status in {400, 500})
    ensures r.response.Turn? ==>
      && body.Some? && Accepted(body.value)
      && var u := r.response.userMessage;
         var a := r.response.aiMessage;
         var cid := body.value.conversationId.value;
         && u.content == Text.Trim(body.value.message.value) && u.role == "user" && u.conversationId == cid
         && a.role == "assistant" && a.conversationId == cid && a.content != ""
         && r.db.messages == db.messages + [u, a]
    ensures body.Some? && Accepted(body.value) ==> r.response.Turn? || r.response == Failure(500, ErrTurn)
    ensures r.response.Failure? && r.response.status == 400 ==> r.db == db
    ensures Valid(db) ==> Valid(r.db)
  {
    if body.None? then PostResult(db, slot, None, Failure(500, ErrTurn))
    else
      var b := body.value;
      if !TruthyText(b.message) || Text.Trim(b.message.value) == "" then
        PostResult(db, slot, None, Failure(400, ErrEmptyMessage))
      else if !Truthy(b.conversationId) then
        PostResult(db, slot, None, Failure(400, ErrMissingId))
      else
        RunTurn(db, b.message.value, b.conversationId.value, slot, apiKey, provider, fault)
  }

  /** `GET /api/chat?conversationId=…`: the raw query value goes through `parseInt` (a missing
      one is the text "null"); NaN or 0 is a 400, otherwise the conversation's messages. */
  function GetChat(db: Db, rawId: Option<string>, up: bool): (r: Response)
    ensures var id := Decimal.ParseInt(rawId.GetOr("null"));
      && (!Truthy(id) <==> r == Failure(400, ErrMissingId))
      && (Truthy(id) && !up ==> r == Failure(500, ErrHistory))
      && (Truthy(id) && up ==> r.Messages? && multiset(r.messages) == multiset(MessagesOf(db.messages, id.value)))
      && (Truthy(id) && up && Valid(db) ==> r == Messages(MessagesOf(db.messages, id.value)))
  {
    var id := Decimal.ParseInt(rawId.GetOr("null"));
    if !Truthy(id) then Failure(400, ErrMissingId)
    else
      match MessageService.GetMessages(db, id.value, up)
      case Err(_) => Failure(500, ErrHistory)
      case Ok(ms) => Messages(ms)
  }

  /** The client puts a conversation id into the query string as decimal text; `GET` reads back
      that same conversation's messages, and a missing parameter is rejected. */
  lemma GetChatByRenderedId(db: Db, id: nat)
    requires Valid(db) && id >= 1
    ensures GetChat(db, Some(Decimal.DecimalString(id)), true) == Messages(MessagesOf(db.messages, id))
    ensures GetChat(db, None, true) == Failure(400, ErrMissingId)
  {
    Decimal.ParseDecimalString(id);
    Decimal.ParseNull();
  }
}
