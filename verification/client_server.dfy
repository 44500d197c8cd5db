/** The client and the chat endpoint together: what a send puts on the wire, what the response
    does to the view, and what a fetch shows. */
module ClientServer {
  import opened Wrappers
  import Text
  import Decimal
  import opened Store
  import AiService
  import ChatRoute
  import UseChat
  import MessageInput

  /** The JSON body a started send posts. */
  function RequestBody(p: UseChat.Pending): Option<ChatRoute.ChatBody> {
    Some(ChatRoute.ChatBody(Some(p.content), Some(p.target)))
  }

  /** How the chat view reads a `POST` response: the two saved messages on OK, else the
      response's error text. */
  function SendOutcomeOf(response: ChatRoute.Response): (o: UseChat.SendOutcome)
    ensures response.Turn? <==> o.Replied?
    ensures response.Turn? ==> o == UseChat.Replied(response.userMessage, response.aiMessage)
    ensures response.Failure? ==> o == UseChat.Refused(Some(response.error))
  {
    match response
    case Turn(u, a) => UseChat.Replied(u, a)
    case Failure(_, e) => UseChat.Refused(Some(e))
    case Messages(_) => UseChat.Refused(None)
  }

  /** How the chat view reads a `GET` response: the listed messages on OK, else the error text. */
  function FetchOutcomeOf(response: ChatRoute.Response): (o: UseChat.FetchOutcome)
    ensures response.Messages? <==> o.Loaded?
    ensures response.Messages? ==> o == UseChat.Loaded(response.messages)
    ensures response.Failure? ==> o == UseChat.LoadRefused(Some(response.error))
  {
    match response
    case Messages(ms) => UseChat.Loaded(ms)
    case Failure(_, e) => UseChat.LoadRefused(Some(e))
    case Turn(_, _) => UseChat.LoadRefused(None)
  }

  /** A send the client starts always passes the endpoint's validation: the content is not blank
      and the target id is truthy, so the answer is never a 400. */
  lemma StartedSendIsAccepted(v: UseChat.ChatView, content: string, override: Option<int>, active: Option<int>, stamp: nat,
                              db: Db, slot: Option<AiService.Client>, apiKey: Option<string>,
                              provider: AiService.Provider, fault: ChatRoute.DbFault)
    ensures var (_, p) := UseChat.BeginSend(v, content, override, active, stamp);
            p.Some? ==>
              && ChatRoute.Accepted(RequestBody(p.value).value)
              && var response := ChatRoute.PostChat(db, RequestBody(p.value), slot, apiKey, provider, fault).response;
                 !(response.Failure? && response.status == 400)
  {
    var (_, p) := UseChat.BeginSend(v, content, override, active, stamp);
    if p.Some? {
      assert !Text.IsBlank(content);
      assert content != "";
      assert ChatRoute.Accepted(RequestBody(p.value).value);
    }
  }

  /** Typing a message and submitting it in an active conversation, when the turn completes:
      the store gains the trimmed text as a user message and the reply after it, and the view
      shows its earlier messages followed by exactly those two rows. */
  lemma TypedMessageRoundTrip(v: UseChat.ChatView, input: string, active: int, stamp: nat,
                              db: Db, slot: Option<AiService.Client>, apiKey: Option<string>,
                              provider: AiService.Provider)
    requires active != 0 && !v.loading && UseChat.FreshStamp(v.messages, stamp)
    ensures var (_, sent) := MessageInput.HandleSubmit(input, v.loading);
      sent.Some? ==>
        var (v1, p) := UseChat.BeginSend(v, sent.value, None, Some(active), stamp);
        && p == Some(UseChat.Pending(active, sent.value, stamp))
        && var r := ChatRoute.PostChat(db, RequestBody(p.value), slot, apiKey, provider, ChatRoute.NoFault);
           r.response.Turn? ==>
             var u := r.response.userMessage;
             var a := r.response.aiMessage;
             && u.content == Text.Trim(input) && u.role == "user" && u.conversationId == active
             && r.db.messages == db.messages + [u, a]
             && UseChat.SettleSend(v1, p.value, SendOutcomeOf(r.response)).0.messages
                  == v.messages + [UseChat.Stored(u), UseChat.Stored(a)]
  {
    var (_, sent) := MessageInput.HandleSubmit(input, v.loading);
    if sent.Some? {
      var text := sent.value;
      Text.TrimIdempotent(input);
      assert !Text.IsBlank(text);
      var (v1, p) := UseChat.BeginSend(v, text, None, Some(active), stamp);
      assert p == Some(UseChat.Pending(active, text, stamp));
      var r := ChatRoute.PostChat(db, RequestBody(p.value), slot, apiKey, provider, ChatRoute.NoFault);
      if r.response.Turn? {
        UseChat.SuccessReplacesPlaceholder(v, text, None, Some(active), stamp, r.response.userMessage, r.response.aiMessage);
      }
    }
  }

  /** A send the endpoint fails leaves the view showing exactly what it showed before, with the
      endpoint's error in the banner. */
  lemma FailedSendRollsBack(v: UseChat.ChatView, content: string, active: int, stamp: nat,
                            db: Db, slot: Option<AiService.Client>, apiKey: Option<string>,
                            provider: AiService.Provider, fault: ChatRoute.DbFault)
    requires UseChat.FreshStamp(v.messages, stamp)
    ensures var (v1, p) := UseChat.BeginSend(v, content, None, Some(active), stamp);
      p.Some? ==>
        var r := ChatRoute.PostChat(db, RequestBody(p.value), slot, apiKey, provider, fault);
        r.response.Failure? ==>
          var v2 := UseChat.SettleSend(v1, p.value, SendOutcomeOf(r.response)).0;
          v2.messages == v.messages && v2.error == Some(r.response.error)
  {
    var (v1, p) := UseChat.BeginSend(v, content, None, Some(active), stamp);
    if p.Some? {
      var r := ChatRoute.PostChat(db, RequestBody(p.value), slot, apiKey, provider, fault);
      if r.response.Failure? {
        UseChat.RollbackRestores(v, content, None, Some(active), stamp, SendOutcomeOf(r.response));
      }
    }
  }

  /** Switching to a conversation fetches `/api/chat?conversationId=<id>` and then shows exactly
      that conversation's stored messages, in creation order. */
  lemma SwitchShowsStoredMessages(v: UseChat.ChatView, db: Db, id: nat)
    requires Valid(db) && id >= 1 && !v.skipNextFetch
    ensures var (v1, fetch) := UseChat.OnConversationChange(v, Some(id));
            && fetch
            && UseChat.ApplyFetch(v1, FetchOutcomeOf(ChatRoute.GetChat(db, Some(Decimal.DecimalString(id)), true))).messages
                 == UseChat.ShowAll(MessagesOf(db.messages, id))
  {
    ChatRoute.GetChatByRenderedId(db, id);
    var (v1, fetch) := UseChat.OnConversationChange(v, Some(id));
    assert v1 == v;
    var outcome := FetchOutcomeOf(ChatRoute.GetChat(db, Some(Decimal.DecimalString(id)), true));
    assert outcome == UseChat.Loaded(MessagesOf(db.messages, id));
    var shown := UseChat.ApplyFetch(v1, outcome).messages;
    assert |shown| == |UseChat.ShowAll(MessagesOf(db.messages, id))|;
    assert forall i :: 0 <= i < |shown| ==> shown[i] == UseChat.ShowAll(MessagesOf(db.messages, id))[i];
  }
}
