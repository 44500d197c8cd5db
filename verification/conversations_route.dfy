/** The conversations endpoint: `GET` lists, `POST` creates, `DELETE` removes by the `id` query
    parameter. Every service failure becomes a 500 with a fixed message. */
module ConversationsRoute {
  import opened Wrappers
  import opened Store
  import Decimal
  import opened ConversationService

  const ErrList := "Erreur lors de la récupération des conversations."
  const ErrCreate := "Erreur lors de la création de la conversation."
  const ErrDelete := "Erreur lors de la suppression de la conversation."
  const ErrMissingId := "ID de conversation requis."

  /** The JSON body of `POST`; its `title` may be missing. */
  datatype CreateBody = CreateBody(title: Option<string>)

  /** An HTTP response of this endpoint; `Deleted` is the body `{ success: true }`. */
  datatype Response =
    | Listed(conversations: seq<Summary>)
    | Created(conversation: Conversation)
    | Deleted
    | Failure(status: int, error: string)

  /** `GET /api/conversations`: the service's list, unchanged, or a 500. */
  function ListRoute(db: Db, up: bool): (r: Response)
    ensures up <==> r.Listed?
    ensures !up ==> r == Failure(500, ErrList)
    ensures up ==> GetConversations(db, up).Ok? && r == Listed(GetConversations(db, up).value)
    ensures r.Listed? ==>
      && multiset(r.conversations) == multiset(AllSummaries(db))
      && forall i, j :: 0 <= i < j < |r.conversations| ==> r.conversations[i].updatedAt >= r.conversations[j].updatedAt
  {
    match GetConversations(db, up)
    case Ok(list) => Listed(list)
    case Err(_) => Failure(500, ErrList)
  }

  /** `POST /api/conversations`: forwards `body.title` (possibly missing) to the service; a body
      that is not JSON throws before anything is written. */
  function CreateRoute(db: Db, body: Option<CreateBody>, up: bool): (r: (Db, Response))
    ensures r.1.Created? <==> body.Some? && up
    ensures !r.1.Created? ==> r == (db, Failure(500, ErrCreate))
    ensures r.1.Created? ==>
      var c := r.1.conversation;
      && (TruthyText(body.value.title) ==> c.title == body.value.title.value)
      && (!TruthyText(body.value.title) ==> c.title == DefaultTitle)
      && r.0.conversations == db.conversations + [c]
      && r.0.messages == db.messages
      && (Valid(db) ==> CountOf(r.0, c.id) == 0 && !HasConversation(db, c.id))
    ensures Valid(db) ==> Valid(r.0)
  {
    if body.None? then (db, Failure(500, ErrCreate))
    else
      var s := CreateConversation(db, body.value.title, up);
      if s.result.Ok? then (s.db, Created(s.result.value)) else (db, Failure(500, ErrCreate))
  }

  /** `DELETE /api/conversations?id=…`: the raw value goes through `parseInt` (a missing one is
      the text "null"); NaN or 0 is a 400 that deletes nothing. Otherwise the service deletes
      the conversation and its messages; a missing row makes it throw, which is a 500. */
  function DeleteRoute(db: Db, rawId: Option<string>, up: bool): (r: (Db, Response))
    ensures var id := Decimal.ParseInt(rawId.GetOr("null"));
      && (!Truthy(id) <==> r.1 == Failure(400, ErrMissingId))
      && (r.1 == Deleted <==> Truthy(id) && up && HasConversation(db, id.value))
      && (r.1 == Deleted ==>
            && !HasConversation(r.0, id.value) && CountOf(r.0, id.value) == 0
            && (forall i :: 0 <= i < |db.conversations| && db.conversations[i].id != id.value ==>
                  db.conversations[i] in r.0.conversations)
            && (forall i :: 0 <= i < |db.messages| && db.messages[i].conversationId != id.value ==>
                  db.messages[i] in r.0.messages))
    ensures r.1.Deleted? || r.1 == Failure(400, ErrMissingId) || r.1 == Failure(500, ErrDelete)
    ensures !r.1.Deleted? ==> r.0 == db
    ensures Valid(db) ==> Valid(r.0)
  {
    var id := Decimal.ParseInt(rawId.GetOr("null"));
    if !Truthy(id) then (db, Failure(400, ErrMissingId))
    else
      var s := DeleteConversation(db, id.value, up);
      if s.result.Ok? then (s.db, Deleted) else (db, Failure(500, ErrDelete))
  }

  /** A conversation id written into the query string as decimal text deletes exactly that
      conversation; afterwards its messages are gone and a second delete of it is a 500. */
  lemma DeleteByRenderedId(db: Db, id: nat)
    requires Valid(db) && HasConversation(db, id)
    ensures var r := DeleteRoute(db, Some(Decimal.DecimalString(id)), true);
            && r.1 == Deleted
            && CountOf(r.0, id) == 0
            && DeleteRoute(r.0, Some(Decimal.DecimalString(id)), true) == (r.0, Failure(500, ErrDelete))
  {
    var k := IndexOf(db.conversations, id).value;
    assert id >= 1;
    Decimal.ParseDecimalString(id);
  }

  /** A missing `id` parameter is rejected without touching the store. */
  lemma DeleteWithoutIdRejected(db: Db, up: bool)
    ensures DeleteRoute(db, None, up) == (db, Failure(400, ErrMissingId))
  {
    Decimal.ParseNull();
  }
}
