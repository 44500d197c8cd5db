# Chat application core in Dafny

A model of the core of a small chat application. The application has four parts:

- a server keeps conversations and messages in a relational store;
- a completion gateway writes the assistant's replies;
- the browser keeps a view of the active conversation in sync;
- a profile form edits the signed-in account.

Each part is modelled as pure functions over immutable values:

- **The store** (`Store`) is a value. It holds the Conversation and Message tables, their auto-increment counters, an abstract clock and a log of the writes performed. The log makes write order, and "nothing was written", statable.
- **The services** (`MessageService`, `ConversationService`) are functions from one store to the next. They return the rows the ORM would return, or the error it would throw: a foreign-key violation, a missing row, or a lost connection. A connection fault is a parameter of every call.
- **The completion gateway** (`AiService`) builds the prompt and picks the reply text. The provider itself is a function parameter.
- **The endpoints** (`ChatRoute`, `ConversationsRoute`) compose the services. Their validation and status codes follow the route handlers. A fault can be injected at any one of a turn's store calls. `ChatRoute.Session` is not a function of the application: it stands for a client posting one message after another to the same conversation, so that the rename rule can be stated over a whole conversation.
- **The browser hooks and components** (`UseChat`, `UseConversations`, `ChatComponent`, `MessageInput`, `ProfileForm`, `UseAuth`) are reducers. Each network exchange is split into one function that starts it and one that applies its outcome. The outcome is a parameter.
- **`ClientServer`** joins the two sides. It proves that a message typed into the input box ends up in the store and in the view, and that a failed send rolls the view back.

Support modules:

- `Text` gives JavaScript's `trim` (its whitespace set written out by code point), `split(".").pop()` and `startsWith`.
- `Decimal` gives `parseInt` and the decimal rendering of ids.
- `Sorting` gives an insertion sort that stands for the ORM's `orderBy`. SQL fixes no order among equal keys, and no contract built on the sort fixes one either: on a store satisfying the integrity invariant, creation times are distinct, so the ordered read has no ties.
- `Wrappers` gives `Option`, `Result` and JavaScript truthiness.

Error behaviour of the code that the model keeps:

- A provider error thrown inside `getAIResponse` (`backend/services/aiService.js:24-38`) is not turned into the fallback reply. It reaches the catch of the chat turn (`app/api/chat/route.js:83`), which answers 500 and keeps the already-saved user message. Only a missing or empty reply content falls back.
- `getMessages` (`backend/services/messageService.js:33-41`) returns the empty list for any id, including one naming no conversation. It never throws for an unknown id.
- `DELETE /api/conversations` with an id naming no conversation answers 500 (`app/api/conversations/route.js:59-61`), because the ORM's delete throws (`backend/services/conversationService.js:43`).
- `saveMessage` (`backend/services/messageService.js:11-17`) does no role or content check.

## Model

| member | source | states |
|---|---|---|
| Text.Trim | app/api/chat/route.js:43-58 | `trim` returns a contiguous slice of the input whose removed ends are whitespace and which neither starts nor ends with whitespace; it is empty exactly when the input is blank |
| Text.TrimIdempotent | frontend/components/MessageInput.js:18 | trimming text that was already trimmed (the input box trims, then the endpoint trims again) changes nothing |
| Text.LastSegment | frontend/hooks/useAuth.js:141 | `split(".").pop()` is the longest dot-free suffix of the name: either the whole name or what follows its last dot |
| Text.LastSegmentOfJoin | frontend/hooks/useAuth.js:141 | for a name `prefix.ext` where `ext` has no dot, the extension taken is exactly `ext` |
| Text.UpperAscii | frontend/components/ProfileForm.js:22 | `toUpperCase` maps a-z to A-Z and leaves other characters alone |
| Decimal.DecimalString | frontend/hooks/useChat.js:39 | an id written into a query string is a non-empty, canonical run of decimal digits whose value is the id |
| Decimal.ParseDecimalString | app/api/chat/route.js:13 | `parseInt` reads back the id the client wrote into the query string |
| Decimal.ParseNull | app/api/chat/route.js:13-15 | a missing query parameter reaches `parseInt` as "null" and gives NaN, so the id check rejects it |
| Decimal.ParseIntDecimal | app/api/chat/route.js:13 | for any leading whitespace, optional `-` or `+`, and non-empty run of decimal digits that does not form a `0x` prefix, followed by nothing or by a non-digit, `parseInt` gives the run's value with the sign applied; the delete endpoint reads its id the same way (app/api/conversations/route.js:50) |
| Decimal.ParseIntNaN | app/api/conversations/route.js:50 | after any leading whitespace and optional sign, `parseInt` is NaN exactly when no digit follows: no hexadecimal digit after a `0x` prefix, no decimal digit otherwise; the chat endpoint reads its id the same way (app/api/chat/route.js:13) |
| Sorting.SortBy | backend/services/messageService.js:36-38 | ordering by a key gives a permutation of the rows sorted by that key |
| Sorting.SortSorted | backend/services/messageService.js:36-38 | ordering rows that are already in key order keeps them as they are |
| Store.MessagesOf | backend/services/messageService.js:34-35 | selecting by conversation keeps exactly the rows of that conversation, in table order, and keeps creation order |
| Store.MessagesOfAppend | backend/services/messageService.js:11-17 | a message saved to a conversation is listed after all of its earlier messages, which keep their order |
| Store.MessagesNotOf | backend/services/conversationService.js:37-46 | the cascade keeps exactly the messages of the other conversations |
| Store.MessagesNotOfInOrder | backend/services/conversationService.js:37-46 | the cascade keeps the remaining messages in creation order |
| Store.ConversationsNot | backend/services/conversationService.js:42-47 | deleting one conversation keeps every other one, in id order |
| Store.IndexOfSameIds | backend/services/conversationService.js:55-61 | a write that changes no id leaves every lookup by id unchanged |
| Store.ValidSorted | backend/services/messageService.js:36-38 | a valid store keeps its messages in creation-time order |
| Store.EmptyValid | backend/services/conversationService.js:8-15 | the empty store satisfies the schema's integrity |
| MessageService.InsertMessage | backend/services/messageService.js:11-17 | the new row carries exactly the given content, role and conversation, is stamped now and appended; an unknown conversation violates the foreign key and writes nothing |
| MessageService.TouchConversation | backend/services/messageService.js:20-23 | only the `updatedAt` of the targeted conversation changes, to the current time; a missing row is not found |
| MessageService.SaveMessage | backend/services/messageService.js:10-26 | insert then touch, as two writes in that order; on success the conversation is newer than the message and than every other conversation; when the touch fails the message stays stored |
| MessageService.GetMessages | backend/services/messageService.js:33-41 | the messages of that conversation only, sorted by creation time; an id with no messages gives the empty list, not an error |
| ConversationService.CreateConversation | backend/services/conversationService.js:8-15 | the new conversation gets the given title, or "Nouvelle discussion" when it is missing or empty, a fresh id and no messages |
| ConversationService.Latest | backend/services/conversationService.js:26-31 | the preview row is a message of that conversation with the latest creation time; there is none exactly when it has no messages |
| ConversationService.SummaryOf | backend/services/conversationService.js:26-31 | a listed conversation carries its own fields and a content-and-role preview, absent exactly when it has no messages; the preview is the content and role of one of its messages, and none of its messages was created later |
| ConversationService.GetConversations | backend/services/conversationService.js:21-35 | every conversation listed once, newest `updatedAt` first |
| ConversationService.CascadeValid | backend/services/conversationService.js:37-46 | deleting a conversation with its messages leaves no message without its conversation |
| ConversationService.DeleteConversation | backend/services/conversationService.js:37-47 | removes the conversation and all of its messages and returns the removed row; every other conversation and message stays; a missing id is not found |
| ConversationService.UpdateConversationTitle | backend/services/conversationService.js:55-61 | only the title of the targeted conversation changes; messages and other conversations are untouched |
| StoreLaws.SavedConversationListedFirst | backend/services/messageService.js:20-23 | after a save, its conversation is listed first |
| StoreLaws.NewestListedFirst | backend/services/conversationService.js:22-25 | a conversation updated strictly later than every other one heads the list |
| StoreLaws.LatestIsLastOf | backend/services/conversationService.js:26-31 | with messages in creation order, the latest message of a conversation is the last of its messages |
| StoreLaws.PreviewIsLastMessage | backend/services/conversationService.js:26-31 | the preview of a listed conversation is the last message `getMessages` returns for it |
| StoreLaws.NewConversationHasNoMessages | backend/services/messageService.js:33-41 | a new conversation lists no messages, as an empty list |
| StoreLaws.DeletedConversationHasNoMessages | backend/services/conversationService.js:37-46 | after a delete, the deleted conversation's messages read as the empty list |
| StoreLaws.SaveKeepsTouched | backend/services/messageService.js:10-26 | a completed save keeps every conversation's `updatedAt` at or after each of its messages' creation |
| StoreLaws.TouchFailureLeavesStaleConversation | backend/services/messageService.js:10-26 | the two writes are not one transaction: a failed touch leaves a stored message newer than its conversation |
| AiService.GetClient | backend/services/aiService.js:7-16 | a stored client is returned as is; otherwise the client is created from the key and stored; with no key the constructor throws and nothing is stored |
| AiService.ClientCreatedOnce | backend/services/aiService.js:7-16 | once a call has produced a client, later calls reuse it whatever key they see; after a call that threw, the next call behaves as a first one |
| AiService.KeylessCallRetries | backend/services/aiService.js:7-16 | a first call without a key throws and stores nothing; the next call with a key builds the client from it |
| AiService.BuildRequest | backend/services/aiService.js:24-36 | the prompt is the fixed system persona followed by the history unchanged, one entry longer; model, temperature and token limit are the fixed constants |
| AiService.SelectReply | backend/services/aiService.js:38 | the first choice's content when it is present and non-empty, otherwise the fixed fallback; never empty |
| AiService.GetAIResponse | backend/services/aiService.js:23-39 | a missing key throws before anything is sent and leaves the slot empty; otherwise the provider receives the built prompt through the stored or new client; a thrown error or a missing `choices` field propagates; only a missing or empty content falls back |
| ChatRoute.DeriveTitle | app/api/chat/route.js:75 | the title is the trimmed message cut to 40 characters, with "..." exactly when it was longer; at most 43 characters; empty only for a blank message |
| ChatRoute.Project | app/api/chat/route.js:62-65 | the gateway history is the role and content of each stored message, in order |
| ChatRoute.Rename | app/api/chat/route.js:73-77 | on a first turn the conversation is renamed to the derived title and nothing else changes; otherwise nothing is written |
| ChatRoute.SaveReply | app/api/chat/route.js:70-77 | the reply is saved as an assistant message of the conversation, then the rename follows; a failure keeps earlier writes |
| ChatRoute.Respond | app/api/chat/route.js:60-77 | the gateway receives the projection of the stored history; a completed turn appends the reply and writes in order insert, touch, then rename exactly on a first turn |
| ChatRoute.RunTurn | app/api/chat/route.js:57-88 | the trimmed user message is saved before anything else and stays saved whatever fails later; a completed turn answers with exactly the two saved messages, user then assistant; on a valid store the gateway sees the earlier messages followed by the new user message, the log gains exactly insert, touch, insert, touch and, on a first turn only, the rename, and the conversation is renamed exactly when it had no messages before |
| ChatRoute.MissingKeyFailsTurn | app/api/chat/route.js:57-88 | with no client yet and no key, a turn answers 500, sends nothing to the gateway and leaves the client slot empty, so the next turn can still create the client |
| ChatRoute.AfterUserMessage | app/api/chat/route.js:60-88 | whatever happens after the user message is saved, it stays in place after the earlier rows; a completed turn appends exactly the reply after it |
| ChatRoute.TurnAddsTwo | app/api/chat/route.js:58-71 | a completed turn adds exactly two messages to its conversation |
| ChatRoute.TurnOutcome | app/api/chat/route.js:58-77 | on a valid store a completed turn keeps the store valid, adds two messages to its conversation and sets the derived title exactly when the conversation had none |
| ChatRoute.SessionRenamesOnlyFirst | app/api/chat/route.js:74-77 | over any number of completed turns on one conversation, each adds two messages; the first turn on an empty conversation renames it after its message and no later turn (history of three or more) renames it again |
| ChatRoute.PostChat | app/api/chat/route.js:37-90 | a missing or blank message is a 400 before the id is checked, then a falsy id is a 400; neither writes nor calls the gateway; a body passing both checks (`ChatRoute.Accepted`: a truthy message that is not all whitespace, so its `trim()` is not empty, and a truthy id, lines 43-55) gives the turn or a 500 |
| ChatRoute.GetChat | app/api/chat/route.js:10-31 | a NaN or zero id is a 400; otherwise the conversation's messages in creation order, or a 500 |
| ChatRoute.GetChatByRenderedId | app/api/chat/route.js:12-23 | the query string the client builds from an id reads that conversation's messages; a missing parameter is a 400 |
| ConversationsRoute.ListRoute | app/api/conversations/route.js:12-23 | exactly the service's list under `conversations` when the read succeeds, so every conversation once, latest `updatedAt` first; a 500 otherwise |
| ConversationsRoute.CreateRoute | app/api/conversations/route.js:29-41 | `body.title`, possibly missing, is forwarded and the created record returned; a body that is not JSON is a 500 that writes nothing |
| ConversationsRoute.DeleteRoute | app/api/conversations/route.js:47-68 | a missing, non-numeric or zero id is a 400 that deletes nothing; success is `{ success: true }` and the conversation and its messages are gone; any service error is a 500 |
| ConversationsRoute.DeleteByRenderedId | app/api/conversations/route.js:47-60 | deleting by the id the client renders removes that conversation; deleting it again is a 500 |
| ConversationsRoute.DeleteWithoutIdRejected | app/api/conversations/route.js:49-57 | no `id` parameter is a 400 and the store is untouched |
| UseChat.WithoutTemp | frontend/hooks/useChat.js:90 | the filter drops the placeholder of this send and keeps every other message |
| UseChat.WithoutFreshTemp | frontend/hooks/useChat.js:97-99 | the filter removes nothing when no placeholder has that stamp |
| UseChat.WithoutTempConcat | frontend/hooks/useChat.js:97-99 | the filter keeps the order of what stays |
| UseChat.BeginSend | frontend/hooks/useChat.js:58-77 | nothing happens for blank content or a falsy target; the target is the override when truthy, else the active id; the untrimmed content is appended as a user placeholder, loading starts, the error clears, and an override raises the skip flag |
| UseChat.SettleSend | frontend/hooks/useChat.js:79-109 | the placeholder goes in every case; success appends the server's user message and reply and notifies; failure shows the server's error or a fixed one; loading ends |
| UseChat.RollbackRestores | frontend/hooks/useChat.js:96-106 | after a failed send the list equals what it was before the send |
| UseChat.SuccessReplacesPlaceholder | frontend/hooks/useChat.js:88-93 | after a successful send the list is the previous list followed by the server's user message and reply |
| UseChat.OnConversationChange | frontend/hooks/useChat.js:19-30 | a truthy id fetches unless the skip flag is up, which it then lowers; a falsy id empties the list |
| UseChat.ShowAll | frontend/hooks/useChat.js:43 | the fetched messages are shown as sent, in order |
| UseChat.ApplyFetch | frontend/hooks/useChat.js:35-50 | a loaded list replaces the shown one; an error shows the server's message or a fixed one and keeps the list |
| UseChat.ClearError | frontend/hooks/useChat.js:115-117 | the error goes and nothing else changes |
| UseChat.SkipConsumedOnce | frontend/hooks/useChat.js:19-66 | a send with an override skips the fetch of exactly one following conversation change |
| UseConversations.ApplyFetch | frontend/hooks/useConversations.js:22-39 | an OK list replaces the shown one and selects its first conversation only when none is active; loading always ends |
| UseConversations.Listed | frontend/hooks/useConversations.js:55 | a created conversation is listed with its own fields and no preview |
| UseConversations.Create | frontend/hooks/useConversations.js:44-63 | success prepends the new conversation, makes it active and returns it; failure returns null and changes nothing |
| UseConversations.Without | frontend/hooks/useConversations.js:77 | removes exactly the entries with that id |
| UseConversations.WithoutConcat | frontend/hooks/useConversations.js:77 | the entries kept stay in order |
| UseConversations.WithoutUnlisted | frontend/hooks/useConversations.js:77 | an id no entry carries removes nothing |
| UseConversations.Delete | frontend/hooks/useConversations.js:69-88 | on an OK response the entries with that id go; deleting the active one selects the first remaining, or none; otherwise the active id stays; a failure changes nothing |
| UseConversations.DeleteActiveReselects | frontend/hooks/useConversations.js:79-81 | after deleting the active conversation, the new active id is listed and differs from the deleted one |
| UseConversations.Select | frontend/hooks/useConversations.js:94-96 | the given id becomes active and nothing else changes |
| UseConversations.Refresh | frontend/hooks/useConversations.js:101-111 | an OK list replaces the shown one; the active id never changes |
| UseConversations.CreateThenDelete | frontend/hooks/useConversations.js:54-77 | deleting a just-created conversation restores the list as it was |
| ChatComponent.HandleNewConversation | frontend/components/Chat.js:28-30 | only creates a conversation; the chat view is untouched |
| ChatComponent.HandleSendMessage | frontend/components/Chat.js:32-41 | with an active conversation it sends to it and creates nothing; with none it creates exactly one, sends nothing if that fails, and otherwise sends to the new id explicitly |
| ChatComponent.CreateThenSendSkipsFetch | frontend/components/Chat.js:32-41 | after create-then-send, the effect on the new active id fetches nothing and consumes the skip flag; the placeholder stays shown |
| MessageInput.HandleSubmit | frontend/components/MessageInput.js:15-20 | blank input or a send in flight is not sent and the box keeps its text; otherwise the trimmed text is sent and the box is cleared |
| ClientServer.SendOutcomeOf | frontend/hooks/useChat.js:86-100 | an OK answer yields the two saved messages; an error answer yields its error text |
| ClientServer.FetchOutcomeOf | frontend/hooks/useChat.js:40-46 | an OK answer yields the listed messages; an error answer yields its error text |
| ClientServer.StartedSendIsAccepted | frontend/hooks/useChat.js:59-84 | every send the client starts passes the endpoint's validation, so it is never answered 400 |
| ClientServer.TypedMessageRoundTrip | frontend/components/MessageInput.js:15-20 | a typed message is stored trimmed, followed by the reply, and the view shows its earlier rows followed by those two |
| ClientServer.FailedSendRollsBack | frontend/hooks/useChat.js:96-106 | a send the endpoint fails leaves the view as before, with the endpoint's error shown |
| ClientServer.SwitchShowsStoredMessages | frontend/hooks/useChat.js:19-46 | switching to a conversation shows exactly its stored messages in creation order |
| UseAuth.SetKey | frontend/hooks/useAuth.js:109-112 | the spread keeps every existing metadata key and value, except the one set |
| UseAuth.BuildUpdate | frontend/hooks/useAuth.js:95-113 | the email only if non-empty and different from the current one, the password only if non-empty, and, for any given display name, the whole metadata with the name replaced |
| UseAuth.UpdateProfile | frontend/hooks/useAuth.js:91-129 | no client fails at once; an empty update succeeds without calling the provider; a provider error is stored and fails; otherwise the user is replaced |
| UseAuth.AvatarPath | frontend/hooks/useAuth.js:141-142 | the path is the user id, `/avatar.`, then the dot-free tail of the file name |
| UseAuth.AvatarPathExtension | frontend/hooks/useAuth.js:141-142 | `photo.png` keeps `png`; a name without a dot is used whole |
| UseAuth.AvatarUrl | frontend/hooks/useAuth.js:160 | the public URL followed by `?t=` and a time that reads back as a number |
| UseAuth.UploadAvatar | frontend/hooks/useAuth.js:136-177 | no client or no user fails at once; a storage error is stored and fails; otherwise the metadata is sent back with only `avatar_url` set |
| UseAuth.NameSurvivesAvatarUpload | frontend/hooks/useAuth.js:163-168 | uploading an avatar after changing the display name keeps the new name |
| ProfileForm.Open | frontend/components/ProfileForm.js:9-14 | the form starts from the stored display name and email, empty when missing, with no password |
| ProfileForm.Initials | frontend/components/ProfileForm.js:22 | the upper-cased first character of the display name, else of the email, else `?` |
| ProfileForm.CheckFile | frontend/components/ProfileForm.js:30-42 | no file, then a type not starting with `image/`, then a size over 2 MiB are refused, in that order |
| ProfileForm.SizeLimitBoundary | frontend/components/ProfileForm.js:39-42 | exactly 2 MiB is accepted and one byte more is refused |
| ProfileForm.HandleFileChange | frontend/components/ProfileForm.js:30-56 | a refused file shows its error and uploads nothing; an accepted one clears the messages, uploads and confirms on success |
| ProfileForm.Changes | frontend/components/ProfileForm.js:70-82 | the display name only if changed from the stored one, the email only if changed, the password only if non-empty |
| ProfileForm.HandleSubmit | frontend/components/ProfileForm.js:58-99 | a non-empty password differing from its confirmation is refused without an update; no change only warns; a successful update confirms and clears both passwords |
| ProfileForm.UntouchedFormOnlyWarns | frontend/components/ProfileForm.js:84-88 | submitting the form as it opened sends nothing and warns |
| ProfileForm.ClearedEmailNeverSent | frontend/components/ProfileForm.js:76-78 | an emptied email field is passed on by the form but never sent by the profile update |
| ProfileForm.SubmittedNameMerged | frontend/components/ProfileForm.js:72-74 | a changed display name reaches the provider inside the full metadata, replacing only the name |

## Left out

- Network, JSON and the ORM/provider clients: every `fetch`, request body, ORM call and provider call becomes an outcome parameter or a function of the store value. A request body that is not JSON is `None`. Non-string JSON values, such as a numeric `message` or `title`, are not modelled.
- `backend/lib/prisma.js` is not part of this model. Neither is the database schema. The cascade on delete follows the service's doc comment. An automatic `updatedAt` bump on rename is not modelled, because the schema is not available.
- Time: `new Date()` and `Date.now()` become an abstract clock that ticks once per timestamped write, and a `stamp` parameter on the client. Placeholder-id uniqueness is the `FreshStamp` hypothesis. The placeholder's ISO `createdAt` is omitted.
- Concurrency and React scheduling:
  - turns are sequential;
  - state setters apply at once;
  - stale closures are not modelled;
  - an effect is an explicit reducer call.
  So the model does not cover this sequence: a conversation is created and its first send fails before `activeId` changes. The skip flag then stays set, and a later conversation switch wrongly skips its fetch.
- The rest of `useAuth.js` is not modelled: the session check and subscription, `signIn`, `signUp` and `signOut`. It is account plumbing with no state the profile logic reads.
- Presentation is not modelled: `MatrixRain.js`, `MatrixIntro.js`, `MessageList.js`, `Sidebar.js`, `LoginForm.js`, `app/page.js`, `app/layout.js`, and the JSX of the modelled components. This includes the avatar click handler, focus handling and the `localError || error` banner choice.
- AiService: the temperature is the real 0.7; the provider's numeric handling is outside the model.
- Text.Trim: strings are sequences of Unicode scalar values, not UTF-16 code units. The whitespace set is JavaScript's, written out by code point.
- Text.UpperAscii: upper-cases only a-z. `toUpperCase` also maps non-ASCII letters, and a few of them to several characters.
- ProfileForm.Initials: inherits the ASCII-only upper-casing of `Text.UpperAscii`. It also takes the first Unicode scalar value, while `charAt(0)` takes the first UTF-16 code unit, which is half of a character outside the Basic Multilingual Plane.
- ProfileForm.HandleSubmit and ProfileForm.HandleFileChange: only the state after the call settles is stated. The transient `saving`/`uploading` flags and the reset of the file input are not.
- ChatRoute.RunTurn: the gateway request, the log order and the rename rule are stated only for a store satisfying the schema's integrity (`Store.Valid`); on an arbitrary value the history read need not be in insertion order.
- ChatRoute.DeriveTitle: the 40-character cut and the length test count Unicode scalar values. `substring` and `length` count UTF-16 code units, so for text outside the Basic Multilingual Plane the source cuts earlier and may split a surrogate pair.
- MessageService.SaveMessage: the abstract clock ticks on every write, so all timestamps are distinct and the touched conversation is strictly newer than the message and than every other conversation. `new Date()` only guarantees "not earlier": two writes in the same millisecond tie.
- StoreLaws.SavedConversationListedFirst: relies on the same distinct timestamps. With a tie, the order among the tied conversations is the database's, and the saved one need not come first.
- Decimal.ParseInt: ids are unbounded naturals. JavaScript numbers are exact only up to 2^53, and from 1e21 on `String` renders them as `1e+21`, which `parseInt` reads back as 1. The round trip is stated for every natural.
- Decimal.ParseIntDecimal: states the exact value of any digit run, while `parseInt` rounds a run above 2^53 to the nearest double.
- Decimal.ParseDecimalString: states that round trip, so it too holds only for ids below 2^53 in the source.
- Decimal.DecimalString: the same precision limit; the rendering is the plain digit string for every natural.
- ChatRoute.GetChatByRenderedId: inherits the unbounded ids of `Decimal.ParseInt` and `Decimal.DecimalString`.
- ConversationsRoute.DeleteByRenderedId: inherits the unbounded ids of `Decimal.ParseInt` and `Decimal.DecimalString`.
- MessageService.GetMessages: on a store that breaks the integrity, only "the same rows, sorted" is stated, not their tie order.
