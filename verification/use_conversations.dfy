/** The conversation list hook: the listed conversations, the active id and the initial loading
    flag. Each network exchange is reduced to its outcome, a parameter of the reducer. */
module UseConversations {
  import opened Wrappers
  import opened Store
  import opened ConversationService

  /** The hook's state. */
  datatype ConvList = ConvList(conversations: seq<Summary>, activeId: Option<int>, loading: bool)

  /** The state on mount: nothing listed, nothing active, loading. */
  function Initial(): ConvList {
    ConvList([], None, true)
  }

  /** How a `GET /api/conversations` settled: an OK list, or anything else (an error status or
      an exception), which the hook only logs. */
  datatype ListOutcome = ListOk(list: seq<Summary>) | ListFailed

  /** `fetchConversations` after the response: an OK list replaces the shown one and, when the
      list is not empty and nothing is active, its first conversation becomes active. Loading
      ends whatever happened. */
  function ApplyFetch(s: ConvList, outcome: ListOutcome): (r: ConvList)
    ensures !r.loading
    ensures outcome.ListFailed? ==> r == s.(loading := false)
    ensures outcome.ListOk? ==> r.conversations == outcome.list
    ensures outcome.ListOk? && |outcome.list| > 0 && !Truthy(s.activeId) ==> r.activeId == Some(outcome.list[0].id)
    ensures !(outcome.ListOk? && |outcome.list| > 0 && !Truthy(s.activeId)) ==> r.activeId == s.activeId
  {
    match outcome
    case ListFailed => s.(loading := false)
    case ListOk(list) =>
      var active := if |list| > 0 && !Truthy(s.activeId) then Some(list[0].id) else s.activeId;
      ConvList(list, active, false)
  }

  /** How a created conversation is listed until the next fetch: no preview yet. */
  function Listed(c: Conversation): (r: Summary)
    ensures r.id == c.id && r.title == c.title && r.updatedAt == c.updatedAt && r.preview.None?
  {
    Summary(c.id, c.title, c.updatedAt, None)
  }

  /** How a `POST /api/conversations` settled. */
  datatype CreateOutcome = CreateOk(conversation: Conversation) | CreateFailed

  /** `createConversation`: on success the new conversation is put first and made active and is
      returned; otherwise nothing changes and the result is null. */
  function Create(s: ConvList, outcome: CreateOutcome): (r: (ConvList, Option<Conversation>))
    ensures r.1.Some? <==> outcome.CreateOk?
    ensures outcome.CreateFailed? ==> r.0 == s
    ensures outcome.CreateOk? ==>
      var c := outcome.conversation;
      && r.1 == Some(c)
      && r.0.conversations == [Listed(c)] + s.conversations
      && r.0.activeId == Some(c.id)
      && r.0.loading == s.loading
  {
    match outcome
    case CreateFailed => (s, None)
    case CreateOk(c) => (s.(conversations := [Listed(c)] + s.conversations, activeId := Some(c.id)), Some(c))
  }

  /** The listed conversations whose id is not `id`, in their order. */
  function Without(cs: seq<Summary>, id: int): (r: seq<Summary>)
    ensures |r| <= |cs|
    ensures forall x :: x in r <==> x in cs && x.id != id
  {
    if |cs| == 0 then []
    else
      var init := cs[..|cs| - 1];
      var last := cs[|cs| - 1];
      assert cs == init + [last];
      if last.id == id then Without(init, id) else Without(init, id) + [last]
  }

  /** Removing an id distributes over concatenation, so the kept conversations stay in order. */
  lemma {:induction false} WithoutConcat(a: seq<Summary>, b: seq<Summary>, id: int)
    ensures Without(a + b, id) == Without(a, id) + Without(b, id)
  {
    if |b| > 0 {
      var init := b[..|b| - 1];
      var last := b[|b| - 1];
      assert b == init + [last];
      assert a + b == (a + init) + [last];
      assert (a + b)[..|a + b| - 1] == a + init;
      WithoutConcat(a, init, id);
      assert Without(b, id) == if last.id == id then Without(init, id) else Without(init, id) + [last];
      assert Without(a + b, id) == if last.id == id then Without(a + init, id) else Without(a + init, id) + [last];
    } else {
      assert a + b == a;
    }
  }

  /** `deleteConversation` after the response: on an OK response every entry with that id goes
      and, when it was the active one, the first remaining conversation becomes active (none if
      the list is now empty). A failed response changes nothing. */
  function Delete(s: ConvList, id: int, ok: bool): (r: ConvList)
    ensures !ok ==> r == s
    ensures ok ==> r.conversations == Without(s.conversations, id) && r.loading == s.loading
    ensures ok && s.activeId == Some(id) ==>
      r.activeId == if r.conversations == [] then None else Some(r.conversations[0].id)
    ensures ok && s.activeId != Some(id) ==> r.activeId == s.activeId
  {
    if !ok then s
    else
      var remaining := Without(s.conversations, id);
      var active := if s.activeId == Some(id) then (if |remaining| > 0 then Some(remaining[0].id) else None) else s.activeId;
      s.(conversations := remaining, activeId := active)
  }

  /** After deleting the active conversation the new active id, if any, is listed and differs
      from the deleted one. */
  lemma DeleteActiveReselects(s: ConvList, id: int)
    requires s.activeId == Some(id)
    ensures var r := Delete(s, id, true);
            r.activeId.Some? ==> r.activeId.value != id && exists x :: x in r.conversations && x.id == r.activeId.value
  {
    var r := Delete(s, id, true);
    if r.activeId.Some? {
      assert r.conversations[0] in r.conversations;
    }
  }

  /** `selectConversation`: the given id becomes active; nothing else changes. */
  function Select(s: ConvList, id: int): (r: ConvList)
    ensures r.activeId == Some(id)
    ensures r.conversations == s.conversations && r.loading == s.loading
  {
    s.(activeId := Some(id))
  }

  /** `refreshConversations` after the response: an OK list replaces the shown one; the active
      id and the loading flag never change. */
  function Refresh(s: ConvList, outcome: ListOutcome): (r: ConvList)
    ensures r.activeId == s.activeId && r.loading == s.loading
    ensures outcome.ListOk? ==> r.conversations == outcome.list
    ensures outcome.ListFailed? ==> r == s
  {
    match outcome
    case ListFailed => s
    case ListOk(list) => s.(conversations := list)
  }

  /** Deleting an id that was just created removes exactly the created entry again. */
  lemma CreateThenDelete(s: ConvList, c: Conversation)
    requires forall i :: 0 <= i < |s.conversations| ==> s.conversations[i].id != c.id
    ensures var (s1, _) := Create(s, CreateOk(c));
            Delete(s1, c.id, true).conversations == s.conversations
  {
    WithoutConcat([Listed(c)], s.conversations, c.id);
    WithoutUnlisted(s.conversations, c.id);
    assert Without([Listed(c)], c.id) == [];
  }

  /** Removing an id no entry carries keeps the list as it is. */
  lemma {:induction false} WithoutUnlisted(cs: seq<Summary>, id: int)
    requires forall i :: 0 <= i < |cs| ==> cs[i].id != id
    ensures Without(cs, id) == cs
  {
    if |cs| > 0 {
      var init := cs[..|cs| - 1];
      assert cs == init + [cs[|cs| - 1]];
      WithoutUnlisted(init, id);
    }
  }
}
