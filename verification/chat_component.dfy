/** The chat screen: it wires the conversation list to the chat view. Sending with no active
    conversation first creates one and then sends to it by explicit id. */
module ChatComponent {
  import opened Wrappers
  import Text
  import opened UseChat
  import opened UseConversations
  import opened Store

  /** The state of both hooks the screen uses. */
  datatype Screen = Screen(list: ConvList, chat: ChatView)

  /** `handleNewConversation`: creates a conversation and sends nothing. */
  function HandleNewConversation(sc: Screen, outcome: CreateOutcome): (r: Screen)
    ensures r.chat == sc.chat
    ensures outcome.CreateOk? ==>
      r.list.activeId == Some(outcome.conversation.id) && r.list.conversations == [Listed(outcome.conversation)] + sc.list.conversations
    ensures outcome.CreateFailed? ==> r == sc
  {
    sc.(list := Create(sc.list, outcome).0)
  }

  /** What one `handleSendMessage` did: the screen afterwards, the send it started (if any) and
      whether it asked for a new conversation. */
  datatype SendStart = SendStart(screen: Screen, pending: Option<Pending>, created: bool)

  /** `handleSendMessage`. With an active conversation it sends to it and creates nothing. With
      none, it creates exactly one conversation first; if that fails nothing is sent, otherwise
      the send names the new id explicitly (the active id seen by this handler is still the old,
      falsy one). */
  function HandleSendMessage(sc: Screen, content: string, creation: CreateOutcome, stamp: nat): (r: SendStart)
    ensures r.created <==> !Truthy(sc.list.activeId)
    ensures Truthy(sc.list.activeId) ==>
      && r.screen.list == sc.list
      && r.screen.chat == BeginSend(sc.chat, content, None, sc.list.activeId, stamp).0
      && (r.pending.Some? ==> r.pending.value.target == sc.list.activeId.value)
      && (r.pending.Some? <==> !Text.IsBlank(content))
    ensures !Truthy(sc.list.activeId) && creation.CreateFailed? ==> r.pending.None? && r.screen == sc
    ensures !Truthy(sc.list.activeId) && creation.CreateOk? ==>
      var c := creation.conversation;
      && r.screen.list == Create(sc.list, creation).0
      && r.screen.list.activeId == Some(c.id)
      && (r.pending.Some? <==> !Text.IsBlank(content) && c.id != 0)
      && (r.pending.Some? ==> r.pending.value.target == c.id && r.screen.chat.skipNextFetch)
  {
    if !Truthy(sc.list.activeId) then
      var (list', conv) := Create(sc.list, creation);
      if conv.None? then SendStart(sc.(list := list'), None, true)
      else
        var (chat', p) := BeginSend(sc.chat, content, Some(conv.value.id), sc.list.activeId, stamp);
        SendStart(Screen(list', chat'), p, true)
    else
      var (chat', p) := BeginSend(sc.chat, content, None, sc.list.activeId, stamp);
      SendStart(sc.(chat := chat'), p, false)
  }

  /** Create-then-send fetches nothing when the new conversation becomes active: the effect that
      follows consumes the skip flag and the placeholder of the message in flight stays shown. */
  lemma CreateThenSendSkipsFetch(sc: Screen, content: string, c: Conversation, stamp: nat)
    requires !Truthy(sc.list.activeId) && c.id != 0 && !Text.IsBlank(content)
    ensures var s := HandleSendMessage(sc, content, CreateOk(c), stamp);
            var (chat', fetch) := OnConversationChange(s.screen.chat, s.screen.list.activeId);
            && s.pending == Some(Pending(c.id, content, stamp))
            && !fetch && !chat'.skipNextFetch
            && chat'.messages == sc.chat.messages + [Placeholder(stamp, content)]
  {
  }
}
