/** The chat view hook: the messages shown for the active conversation, the loading flag, the
    error banner and the one-shot flag that makes the next conversation change skip its fetch.
    Every network exchange is split in two reducers: one that starts it (and says what is sent)
    and one that applies its outcome. */
module UseChat {
  import opened Wrappers
  import Text
  import opened Store

  const ErrLoad := "Erreur lors du chargement des messages."
  const ErrLoadOffline := "Impossible de se connecter au serveur."
  const ErrSend := "Erreur lors de l'envoi du message."
  const ErrSendOffline := "Impossible d'envoyer le message."

  /** A shown message: the optimistic placeholder of a message being sent (id `"temp-"` followed
      by the stamp, role user) or a message the server returned. A server id is a number, so it
      never equals a placeholder id. */
  datatype Shown = Placeholder(stamp: nat, content: string) | Stored(message: Message)

  /** The hook's state. */
  datatype ChatView = ChatView(messages: seq<Shown>, loading: bool, error: Option<string>, skipNextFetch: bool)

  /** The state on mount. */
  function Initial(): ChatView {
    ChatView([], false, None, false)
  }

  /** The placeholder whose id is built from `stamp`. */
  predicate IsTemp(x: Shown, stamp: nat) {
    x.Placeholder? && x.stamp == stamp
  }

  /** No placeholder with this stamp is shown. */
  predicate FreshStamp(s: seq<Shown>, stamp: nat) {
    forall i :: 0 <= i < |s| ==> !IsTemp(s[i], stamp)
  }

  /** `prev.filter(msg => msg.id !== temp.id)`: drops the placeholder(s) with this stamp and keeps
      every other message, in order. */
  function WithoutTemp(s: seq<Shown>, stamp: nat): (r: seq<Shown>)
    ensures |r| <= |s|
    ensures FreshStamp(r, stamp)
    ensures forall x :: x in r <==> x in s && !IsTemp(x, stamp)
  {
    if |s| == 0 then []
    else
      var init := s[..|s| - 1];
      var last := s[|s| - 1];
      assert s == init + [last];
      if IsTemp(last, stamp) then WithoutTemp(init, stamp) else WithoutTemp(init, stamp) + [last]
  }

  /** The filter removes nothing when no placeholder carries the stamp. */
  lemma {:induction false} WithoutFreshTemp(s: seq<Shown>, stamp: nat)
    requires FreshStamp(s, stamp)
    ensures WithoutTemp(s, stamp) == s
  {
    if |s| > 0 {
      var init := s[..|s| - 1];
      assert s == init + [s[|s| - 1]];
      WithoutFreshTemp(init, stamp);
    }
  }

  /** The filter distributes over concatenation, so it keeps the relative order of what stays. */
  lemma {:induction false} WithoutTempConcat(a: seq<Shown>, b: seq<Shown>, stamp: nat)
    ensures WithoutTemp(a + b, stamp) == WithoutTemp(a, stamp) + WithoutTemp(b, stamp)
  {
    if |b| > 0 {
      var init := b[..|b| - 1];
      var last := b[|b| - 1];
      assert b == init + [last];
      assert a + b == (a + init) + [last];
      assert (a + b)[..|a + b| - 1] == a + init;
      WithoutTempConcat(a, init, stamp);
      assert WithoutTemp(b, stamp) ==
        if IsTemp(last, stamp) then WithoutTemp(init, stamp) else WithoutTemp(init, stamp) + [last];
      assert WithoutTemp(a + b, stamp) ==
        if IsTemp(last, stamp) then WithoutTemp(a + init, stamp) else WithoutTemp(a + init, stamp) + [last];
    } else {
      assert a + b == a;
    }
  }

  /** A send that has started: where it goes, what it says and its placeholder's stamp. The
      request body is `{ message: content, conversationId: target }`. */
  datatype Pending = Pending(target: int, content: string, stamp: nat)

  /** `sendMessage` up to the request. The target is the override id when it is truthy, else the
      active id. A blank content or a falsy target makes the call do nothing. Otherwise an
      override raises the skip flag, the untrimmed content is appended as a placeholder, loading
      starts and the error is cleared. */
  function BeginSend(v: ChatView, content: string, override: Option<int>, active: Option<int>, stamp: nat):
    (r: (ChatView, Option<Pending>))
    ensures r.1.None? <==> Text.IsBlank(content) || !Truthy(OrElse(override, active))
    ensures r.1.None? ==> r.0 == v
    ensures r.1.Some? ==>
      && r.1.value.content == content && r.1.value.stamp == stamp && r.1.value.target != 0
      && (Truthy(override) ==> r.1.value.target == override.value)
      && (!Truthy(override) ==> r.1.value.target == active.value)
      && r.0.messages == v.messages + [Placeholder(stamp, content)]
      && r.0.loading && r.0.error.None?
      && (r.0.skipNextFetch <==> v.skipNextFetch || Truthy(override))
  {
    var target := OrElse(override, active);
    if Text.Trim(content) == "" || !Truthy(target) then (v, None)
    else
      var v' := v.(messages := v.messages + [Placeholder(stamp, content)],
                   loading := true,
                   error := None,
                   skipNextFetch := v.skipNextFetch || Truthy(override));
      (v', Some(Pending(target.value, content, stamp)))
  }

  /** How a send settled: the server answered OK with the two saved messages, answered with an
      error status (and maybe an `error` field), or could not be reached. */
  datatype SendOutcome = Replied(userMessage: Message, aiMessage: Message) | Refused(error: Option<string>) | Unreachable

  /** `sendMessage` after the response. The placeholder is dropped in every case; on success the
      server's user message and reply are appended and the caller is notified; otherwise the
      error banner shows the server's error or a fixed one. Loading always ends. Returns the
      view and whether the caller was notified. */
  function SettleSend(v: ChatView, p: Pending, outcome: SendOutcome): (r: (ChatView, bool))
    ensures !r.0.loading && r.0.skipNextFetch == v.skipNextFetch
    ensures r.1 <==> outcome.Replied?
    ensures outcome.Replied? ==>
      && r.0.messages == WithoutTemp(v.messages, p.stamp) + [Stored(outcome.userMessage), Stored(outcome.aiMessage)]
      && r.0.error == v.error
    ensures !outcome.Replied? ==> r.0.messages == WithoutTemp(v.messages, p.stamp) && r.0.error.Some?
    ensures outcome.Refused? ==>
      r.0.error == Some(if TruthyText(outcome.error) then outcome.error.value else ErrSend)
    ensures outcome.Unreachable? ==> r.0.error == Some(ErrSendOffline)
  {
    var rest := WithoutTemp(v.messages, p.stamp);
    match outcome
    case Replied(u, a) => (v.(messages := rest + [Stored(u), Stored(a)], loading := false), true)
    case Refused(e) =>
      (v.(messages := rest, loading := false, error := Some(if TruthyText(e) then e.value else ErrSend)), false)
    case Unreachable => (v.(messages := rest, loading := false, error := Some(ErrSendOffline)), false)
  }

  /** A failed send leaves exactly the messages shown before it, provided its stamp was fresh. */
  lemma RollbackRestores(v: ChatView, content: string, override: Option<int>, active: Option<int>, stamp: nat, outcome: SendOutcome)
    requires FreshStamp(v.messages, stamp) && !outcome.Replied?
    ensures var (v1, p) := BeginSend(v, content, override, active, stamp);
            p.Some? ==>
              var v2 := SettleSend(v1, p.value, outcome).0;
              v2.messages == v.messages && !v2.loading && v2.error.Some?
  {
    var (v1, p) := BeginSend(v, content, override, active, stamp);
    if p.Some? {
      WithoutTempConcat(v.messages, [Placeholder(stamp, content)], stamp);
      WithoutFreshTemp(v.messages, stamp);
      assert WithoutTemp([Placeholder(stamp, content)], stamp) == [];
    }
  }

  /** A successful send leaves the messages shown before it followed by the server's user
      message and reply: the placeholder is replaced, nothing else moves. */
  lemma SuccessReplacesPlaceholder(v: ChatView, content: string, override: Option<int>, active: Option<int>, stamp: nat,
                                   u: Message, a: Message)
    requires FreshStamp(v.messages, stamp)
    ensures var (v1, p) := BeginSend(v, content, override, active, stamp);
            p.Some? ==>
              var (v2, notified) := SettleSend(v1, p.value, Replied(u, a));
              v2.messages == v.messages + [Stored(u), Stored(a)] && !v2.loading && v2.error.None? && notified
  {
    var (v1, p) := BeginSend(v, content, override, active, stamp);
    if p.Some? {
      WithoutTempConcat(v.messages, [Placeholder(stamp, content)], stamp);
      WithoutFreshTemp(v.messages, stamp);
      assert WithoutTemp([Placeholder(stamp, content)], stamp) == [];
    }
  }

  /** The effect on a change of the active conversation. A truthy id fetches its messages unless
      the skip flag is up, in which case the flag is lowered and nothing is fetched. A falsy id
      empties the list. Returns the view and whether a fetch starts. */
  function OnConversationChange(v: ChatView, id: Option<int>): (r: (ChatView, bool))
    ensures r.1 <==> Truthy(id) && !v.skipNextFetch
    ensures Truthy(id) ==> r.0 == v.(skipNextFetch := false)
    ensures !Truthy(id) ==> r.0 == v.(messages := [])
  {
    if Truthy(id) then
      if v.skipNextFetch then (v.(skipNextFetch := false), false) else (v, true)
    else (v.(messages := []), false)
  }

  /** How a fetch of the messages settled. */
  datatype FetchOutcome = Loaded(messages: seq<Message>) | LoadRefused(error: Option<string>) | LoadUnreachable

  /** The messages as the server sent them, shown in that order. */
  function ShowAll(ms: seq<Message>): (r: seq<Shown>)
    ensures |r| == |ms|
    ensures forall i :: 0 <= i < |ms| ==> r[i] == Stored(ms[i])
  {
    seq(|ms|, i requires 0 <= i < |ms| => Stored(ms[i]))
  }

  /** `fetchMessages` after the response: the list is replaced by the server's messages, or the
      error banner shows the server's error or a fixed one; nothing else changes. */
  function ApplyFetch(v: ChatView, outcome: FetchOutcome): (r: ChatView)
    ensures r.loading == v.loading && r.skipNextFetch == v.skipNextFetch
    ensures outcome.Loaded? ==>
      && r.error == v.error
      && |r.messages| == |outcome.messages|
      && forall i :: 0 <= i < |r.messages| ==> r.messages[i].Stored? && r.messages[i].message == outcome.messages[i]
    ensures outcome.LoadRefused? ==>
      r.messages == v.messages && r.error == Some(if TruthyText(outcome.error) then outcome.error.value else ErrLoad)
    ensures outcome.LoadUnreachable? ==> r.messages == v.messages && r.error == Some(ErrLoadOffline)
  {
    match outcome
    case Loaded(ms) => v.(messages := ShowAll(ms))
    case LoadRefused(e) => v.(error := Some(if TruthyText(e) then e.value else ErrLoad))
    case LoadUnreachable => v.(error := Some(ErrLoadOffline))
  }

  /** `clearError`: the banner goes, nothing else changes. */
  function ClearError(v: ChatView): (r: ChatView)
    ensures r.error.None?
    ensures r.messages == v.messages && r.loading == v.loading && r.skipNextFetch == v.skipNextFetch
  {
    v.(error := None)
  }

  /** A send with an override id skips the fetch of exactly one following conversation change:
      the next change to a truthy id fetches nothing and lowers the flag, the one after fetches. */
  lemma SkipConsumedOnce(v: ChatView, content: string, override: int, active: Option<int>, stamp: nat,
                         next: Option<int>, later: Option<int>)
    requires override != 0 && !Text.IsBlank(content)
    requires Truthy(next) && Truthy(later)
    ensures var (v1, p) := BeginSend(v, content, Some(override), active, stamp);
            var (v2, fetch2) := OnConversationChange(v1, next);
            var (v3, fetch3) := OnConversationChange(v2, later);
            p.Some? && p.value.target == override && v1.skipNextFetch
            && !fetch2 && !v2.skipNextFetch && v2.messages == v1.messages
            && fetch3
  {
  }
}
