/** The completion gateway: a lazily created client, the prompt (fixed persona first, then the
    history) and the choice of the reply text with a fixed fallback. The provider itself is a
    parameter: a function from the client and the request to what the network call produced. */
module AiService {
  import opened Wrappers

  /** The persona sent as the first, system, entry of every prompt. */
  const SystemPersona := "Tu es un assistant virtuel amical et utile. Tu réponds en français de manière claire et concise."
  /** Reply used when the provider returns no content. */
  const FallbackReply := "Désolé, je n'ai pas pu générer de réponse."
  const ModelName := "llama-3.3-70b-versatile"
  const Temperature: real := 0.7
  const MaxTokens := 1024

  /** One prompt entry: a role and a text. */
  datatype ChatEntry = ChatEntry(role: string, content: string)

  /** The provider client, built from the API key found in the environment. */
  datatype Client = Client(apiKey: string)

  /** What the client constructor throws when the environment holds no API key (the SDK's own
      text, shortened; the SDK is not part of this model, and no caller shows this text). */
  const MissingKeyError := "The GROQ_API_KEY environment variable is missing or empty"

  /** The completion request the gateway sends. */
  datatype Request = Request(messages: seq<ChatEntry>, model: string, temperature: real, maxTokens: int)

  /** `message` of one returned choice; `content` may be missing. */
  datatype ChoiceMessage = ChoiceMessage(content: Option<string>)
  /** One returned choice; its `message` may be missing. */
  datatype Choice = Choice(message: Option<ChoiceMessage>)

  /** What the provider call produced: it threw, or it returned a `choices` field (possibly missing). */
  datatype Completion = Threw(reason: string) | Returned(choices: Option<seq<Choice>>)

  /** The external provider, as a function of the client and the request. */
  type Provider = (Client, Request) -> Completion

  /** `getGroqClient`: the module-level slot is filled on first use and reused afterwards. The
      client constructor throws when no key is set, before the slot is assigned, so a keyless call
      leaves the slot empty and the next call tries again. */
  function GetClient(slot: Option<Client>, apiKey: Option<string>): (r: (Option<Client>, Result<Client, string>))
    ensures r.1.Ok? <==> slot.Some? || apiKey.Some?
    ensures r.1.Ok? ==> r.0 == Some(r.1.value)
    ensures r.1.Err? ==> r.0 == slot == None && r.1.error == MissingKeyError
    ensures slot.Some? ==> r.1 == Ok(slot.value)
    ensures slot.None? && apiKey.Some? ==> r.1 == Ok(Client(apiKey.value))
  {
    if slot.Some? then (slot, Ok(slot.value))
    else if apiKey.None? then (None, Err(MissingKeyError))
    else
      var c := Client(apiKey.value);
      (Some(c), Ok(c))
  }

  /** Once a call has produced a client, later calls reuse it whatever key they see; a call that
      found no key leaves nothing behind, so the next call behaves as a first one. */
  lemma ClientCreatedOnce(slot: Option<Client>, key1: Option<string>, key2: Option<string>)
    ensures var (s1, c1) := GetClient(slot, key1);
            var (s2, c2) := GetClient(s1, key2);
            && (c1.Ok? ==> s2 == s1 && c2 == c1)
            && (c1.Err? ==> (s2, c2) == GetClient(None, key2))
  {
  }

  /** A first call without a key throws; once the key is set the next call builds the client
      from it. */
  lemma KeylessCallRetries(key: string)
    ensures var (s1, c1) := GetClient(None, None);
            var (s2, c2) := GetClient(s1, Some(key));
            c1.Err? && s1.None? && c2 == Ok(Client(key)) && s2 == Some(Client(key))
  {
  }

  /** The request for a history: the persona as a system entry, then the history unchanged. */
  function BuildRequest(history: seq<ChatEntry>): (r: Request)
    ensures |r.messages| == |history| + 1
    ensures r.messages[0] == ChatEntry("system", SystemPersona)
    ensures r.messages[1..] == history
    ensures r.model == ModelName && r.temperature == Temperature && r.maxTokens == MaxTokens
  {
    Request([ChatEntry("system", SystemPersona)] + history, ModelName, Temperature, MaxTokens)
  }

  /** The content of the first choice, when it is present. */
  function FirstContent(choices: seq<Choice>): Option<string> {
    if |choices| == 0 || choices[0].message.None? then None
    else choices[0].message.value.content
  }

  /** `choices[0]?.message?.content || fallback`: the first choice's content when it is present
      and non-empty, the fallback otherwise; never the empty string. */
  function SelectReply(choices: seq<Choice>): (r: string)
    ensures r != ""
    ensures TruthyText(FirstContent(choices)) ==> r == FirstContent(choices).value
    ensures !TruthyText(FirstContent(choices)) ==> r == FallbackReply
  {
    var content := FirstContent(choices);
    if TruthyText(content) then content.value else FallbackReply
  }

  /** The outcome of one `getAIResponse`: the client slot afterwards, the request if it reached
      the provider, and the reply or what was thrown. */
  datatype AiCall = AiCall(slot: Option<Client>, sent: Option<Request>, reply: Result<string, string>)

  /** `getAIResponse`: obtains the (lazily created) client, then sends `BuildRequest(history)`
      through it. A missing key throws before anything is sent. A provider that throws — or
      returns no `choices` field, which the code then indexes — makes the call throw; only a
      missing or empty content falls back to the fixed reply. */
  function GetAIResponse(slot: Option<Client>, apiKey: Option<string>, history: seq<ChatEntry>, provider: Provider):
    (r: AiCall)
    ensures slot.Some? ==> r.slot == slot
    ensures slot.None? ==> r.slot == if apiKey.Some? then Some(Client(apiKey.value)) else None
    ensures r.sent.Some? <==> slot.Some? || apiKey.Some?
    ensures r.sent.Some? ==> r.sent.value == BuildRequest(history)
    ensures r.sent.None? ==> r.reply == Err(MissingKeyError)
    ensures r.sent.Some? ==>
            var client := if slot.Some? then slot.value else Client(apiKey.value);
            match provider(client, BuildRequest(history))
            case Threw(reason) => r.reply == Err(reason)
            case Returned(None) => r.reply.Err?
            case Returned(Some(choices)) => r.reply == Ok(SelectReply(choices))
    ensures r.reply.Ok? ==> r.reply.value != ""
  {
    var (slot', client) := GetClient(slot, apiKey);
    if client.Err? then AiCall(slot', None, Err(client.error))
    else
      var request := BuildRequest(history);
      match provider(client.value, request)
      case Threw(reason) => AiCall(slot', Some(request), Err(reason))
      case Returned(None) => AiCall(slot', Some(request), Err("choices is undefined"))
      case Returned(Some(choices)) => AiCall(slot', Some(request), Ok(SelectReply(choices)))
  }
}
