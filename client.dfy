/**
 * The Grok API client: the conversation history it keeps, the chat payload it
 * builds from that history, the way a reply (or its absence) updates the history,
 * and the first-match rule that picks a model. The HTTP endpoint is a `Server`
 * function from request to outcome.
 */
module ApiClient {
  import opened Wrappers

  /** Models probed in order when no model name is configured. */
  const GrokModels: seq<string> := ["grok-1.5-preview-0513", "grok-1.5-preview", "grok-1.5", "grok-beta", "grok"]

  const DefaultBaseUrl := "https://api.x.ai/v1"
  const MissingKeyMessage := "GROK API key is required. Set GROK_API_KEY environment variable."
  const Instructions := "You are a helpful AI assistant. You can analyze code, suggest improvements, and help with development tasks. When you suggest shell commands, format them clearly and explain what they do."

  /** A conversation message, and equally one `{"role", "content"}` entry of the payload. */
  datatype Message = Message(role: string, content: string)

  /** The content of the system entry that carries the context. */
  function SystemContent(context: string): string {
    "Context:\n" + context + "\n\n" + Instructions
  }

  /** `sum(len(msg.content) for msg in messages)`. */
  function SumLengths(messages: seq<Message>): nat {
    if |messages| == 0 then 0 else SumLengths(messages[..|messages| - 1]) + |messages[|messages| - 1].content|
  }

  lemma {:induction false} SumLengthsConcat(a: seq<Message>, b: seq<Message>)
    ensures SumLengths(a + b) == SumLengths(a) + SumLengths(b)
    decreases |b|
  {
    if |b| == 0 {
      assert a + b == a;
    } else {
      var b' := b[..|b| - 1];
      assert (a + b)[..|a + b| - 1] == a + b';
      SumLengthsConcat(a, b');
      assert b[..|b| - 1] == b';
    }
  }

  /** Appending one message adds exactly its content length. */
  lemma SumLengthsSnoc(a: seq<Message>, m: Message)
    ensures SumLengths(a + [m]) == SumLengths(a) + |m.content|
  {
    assert (a + [m])[..|a|] == a;
  }

  /** Every content length counts: the total is at least any one message's length. */
  lemma {:induction false} SumLengthsBound(messages: seq<Message>, i: nat)
    requires i < |messages|
    ensures |messages[i].content| <= SumLengths(messages)
    decreases |messages|
  {
    if i < |messages| - 1 {
      var init := messages[..|messages| - 1];
      assert init[i] == messages[i];
      SumLengthsBound(init, i);
    }
  }

  /** The payload `format_for_api` builds: a system entry only for a non-empty context. */
  function ApiMessages(messages: seq<Message>, context: string): seq<Message> {
    (if context != "" then [Message("system", SystemContent(context))] else []) + messages
  }

  lemma ApiMessagesShape(messages: seq<Message>, context: string)
    ensures var r := ApiMessages(messages, context);
      var offset := if context != "" then 1 else 0;
      && |r| == |messages| + offset
      && (context != "" ==> r[0] == Message("system", SystemContent(context)))
      && (forall i | 0 <= i < |messages| :: r[i + offset] == messages[i])
  {
  }

  /** With only user and assistant messages in the history, the payload opens with a
      system entry exactly when the context is non-empty. */
  lemma ApiMessagesSystemFirst(messages: seq<Message>, context: string)
    requires forall i | 0 <= i < |messages| :: messages[i].role != "system"
    ensures var r := ApiMessages(messages, context);
      (|r| > 0 && r[0].role == "system") <==> context != ""
  {
    var r := ApiMessages(messages, context);
    if context == "" && |r| > 0 {
      assert r[0] == messages[0];
    }
  }

  /** What `get_conversation_summary` reports. */
  datatype Summary = Summary(messageCount: nat, contextLength: nat, totalLength: nat, lastMessage: Option<string>)

  function SummaryOf(messages: seq<Message>, context: string): (s: Summary)
    ensures s.totalLength == SumLengths(messages) + |context|
    ensures s.lastMessage.Some? <==> |messages| > 0
  {
    Summary(|messages|, |context|, SumLengths(messages) + |context|,
            if |messages| > 0 then Some(messages[|messages| - 1].content) else None)
  }

  /** After one more message: one more counted, its length added, and it is the last. */
  lemma SummaryAfterAppend(messages: seq<Message>, context: string, m: Message)
    ensures var before := SummaryOf(messages, context);
      var after := SummaryOf(messages + [m], context);
      && after.messageCount == before.messageCount + 1
      && after.contextLength == before.contextLength
      && after.totalLength == before.totalLength + |m.content|
      && after.lastMessage == Some(m.content)
  {
    SumLengthsSnoc(messages, m);
  }

  /** A cleared history reports no messages and only the context's length. */
  lemma SummaryAfterClear(context: string)
    ensures SummaryOf([], context) == Summary(0, |context|, |context|, None)
  {
  }

  /** The history of one session. */
  class Conversation {
    var messages: seq<Message>
    var context: string
    var sessionId: string

    constructor()
      ensures messages == [] && context == "" && sessionId == ""
    {
      messages := [];
      context := "";
      sessionId := "";
    }

    /** `get_context_length`. */
    function GetContextLength(): nat
      reads this
    {
      SumLengths(messages) + |context|
    }

    /** `add_message`: one message at the end, earlier ones untouched. */
    method AddMessage(role: string, content: string)
      modifies this
      ensures messages == old(messages) + [Message(role, content)]
      ensures context == old(context) && sessionId == old(sessionId)
      ensures GetContextLength() == old(GetContextLength()) + |content|
    {
      SumLengthsSnoc(messages, Message(role, content));
      messages := messages + [Message(role, content)];
    }

    /** `format_for_api`, built entry by entry. */
    method FormatForApi() returns (r: seq<Message>)
      ensures r == ApiMessages(messages, context)
    {
      r := [];
      if context != "" {
        r := r + [Message("system", SystemContent(context))];
      }
      var prefix := r;
      for i := 0 to |messages|
        invariant r == prefix + messages[..i]
      {
        r := r + [Message(messages[i].role, messages[i].content)];
      }
      assert messages[..|messages|] == messages;
    }
  }

  /** The JSON body and target of one POST to the chat-completions endpoint. */
  datatype Request = Request(url: string, model: string, messages: seq<Message>, maxTokens: nat,
                             temperature: Option<real>, stream: Option<bool>, timeout: nat)

  /** How a POST ends: an HTTP status with, for a readable body, the first choice's
      content; a `RequestException`; or a `KeyboardInterrupt`, which no handler catches. */
  datatype ApiOutcome = Http(status: int, content: Option<string>) | NetworkError | Interrupted

  type Server = Request -> ApiOutcome

  function ChatUrl(baseUrl: string): string {
    baseUrl + "/chat/completions"
  }

  /** The probe sent for each candidate model. */
  function ProbeRequest(baseUrl: string, model: string): Request {
    Request(ChatUrl(baseUrl), model, [Message("user", "Hello")], 10, None, None, 10)
  }

  /** The request `send_message` sends for a history and context. */
  function ChatRequest(baseUrl: string, model: string, messages: seq<Message>, context: string): Request {
    Request(ChatUrl(baseUrl), model, ApiMessages(messages, context), 4000, Some(0.7), Some(false), 30)
  }

  function IsOk(o: ApiOutcome): bool {
    o.Http? && o.status == 200
  }

  /** The result of probing the models in order. */
  datatype Discovery = Found(model: string) | NoneFound | ProbeInterrupted

  /** First model whose probe answers 200; any other status or a network error moves on. */
  function FirstAvailable(models: seq<string>, probe: string -> ApiOutcome): (r: Discovery)
    ensures r.Found? ==> r.model in models && IsOk(probe(r.model))
    ensures r.NoneFound? ==> forall i | 0 <= i < |models| :: !IsOk(probe(models[i]))
  {
    if |models| == 0 then NoneFound
    else if probe(models[0]).Interrupted? then ProbeInterrupted
    else if IsOk(probe(models[0])) then Found(models[0])
    else
      var r := FirstAvailable(models[1..], probe);
      assert r.NoneFound? ==> forall i | 1 <= i < |models| :: models[i] == models[1..][i - 1];
      r
  }

  /** The model found is the first that answered 200, and no earlier probe was cut short. */
  lemma {:induction false} FirstAvailableIsFirst(models: seq<string>, probe: string -> ApiOutcome, i: nat)
    requires i < |models| && IsOk(probe(models[i]))
    requires forall j | 0 <= j < i :: !IsOk(probe(models[j])) && !probe(models[j]).Interrupted?
    ensures FirstAvailable(models, probe) == Found(models[i])
    decreases i
  {
    if i > 0 {
      assert forall j | 0 <= j < i - 1 :: models[1..][j] == models[j + 1];
      FirstAvailableIsFirst(models[1..], probe, i - 1);
    }
  }

  /** The model `_discover_available_model` settles on when not interrupted. */
  function ChosenModel(d: Discovery): string {
    if d.Found? then d.model else GrokModels[0]
  }

  function Probe(server: Server, baseUrl: string): string -> ApiOutcome {
    m => server(ProbeRequest(baseUrl, m))
  }

  /** `_discover_available_model`: probe each model in order, fall back to the first. */
  method DiscoverAvailableModel(server: Server, baseUrl: string) returns (model: string, interrupted: bool)
    ensures var d := FirstAvailable(GrokModels, Probe(server, baseUrl));
      && (interrupted <==> d.ProbeInterrupted?)
      && (!interrupted ==> model == ChosenModel(d))
  {
    var probe := Probe(server, baseUrl);
    for i := 0 to |GrokModels|
      invariant FirstAvailable(GrokModels, probe) == FirstAvailable(GrokModels[i..], probe)
    {
      var outcome := server(ProbeRequest(baseUrl, GrokModels[i]));
      assert outcome == probe(GrokModels[i..][0]);
      if outcome.Interrupted? {
        return "", true;
      } else if outcome.Http? && outcome.status == 200 {
        return GrokModels[i], false;
      }
      assert GrokModels[i..][1..] == GrokModels[i + 1..];
    }
    model, interrupted := GrokModels[0], false;
  }

  /** Python's `a or b` on optional strings: `None` and `""` are falsy. */
  function PyOr(a: Option<string>, b: Option<string>): (r: Option<string>)
    ensures r == a || r == b
    ensures (a.Some? && a.value != "") ==> r == a
  {
    if a.Some? && a.value != "" then a else b
  }

  datatype InitError = MissingApiKey(message: string) | InitInterrupted

  class GrokApiClient {
    const apiKey: string
    const baseUrl: string
    const conversation: Conversation
    const server: Server
    var model: string

    constructor(apiKey: string, baseUrl: string, model: string, server: Server)
      ensures this.apiKey == apiKey && this.baseUrl == baseUrl && this.model == model && this.server == server
      ensures fresh(conversation) && conversation.messages == [] && conversation.context == ""
    {
      this.apiKey := apiKey;
      this.baseUrl := baseUrl;
      this.model := model;
      this.server := server;
      this.conversation := new Conversation();
    }

    /** `set_context`: the context is replaced, the history kept. */
    method SetContext(context: string)
      modifies conversation
      ensures conversation.context == context
      ensures conversation.messages == old(conversation.messages) && conversation.sessionId == old(conversation.sessionId)
    {
      conversation.context := context;
    }

    /** `send_message`: the user message is recorded first and kept whatever happens;
        the reply is recorded and returned only for status 200 with readable content. */
    method SendMessage(message: string) returns (reply: Option<string>, interrupted: bool)
      modifies conversation
      ensures var outcome := server(ChatRequest(baseUrl, model, old(conversation.messages) + [Message("user", message)], old(conversation.context)));
        && (interrupted <==> outcome.Interrupted?)
        && (reply.Some? <==> IsOk(outcome) && outcome.content.Some?)
        && (reply.Some? ==> (reply.value == outcome.content.value
              && conversation.messages == old(conversation.messages) + [Message("user", message), Message("assistant", reply.value)]))
        && (reply.None? ==> conversation.messages == old(conversation.messages) + [Message("user", message)])
      ensures conversation.context == old(conversation.context) && conversation.sessionId == old(conversation.sessionId)
    {
      conversation.AddMessage("user", message);
      var payload := conversation.FormatForApi();
      var outcome := server(Request(ChatUrl(baseUrl), model, payload, 4000, Some(0.7), Some(false), 30));
      match outcome
      case Interrupted =>
        reply, interrupted := None, true;
      case NetworkError =>
        reply, interrupted := None, false;
      case Http(status, content) =>
        interrupted := false;
        if status == 200 && content.Some? {
          conversation.AddMessage("assistant", content.value);
          reply := content;
        } else {
          reply := None;
        }
    }

    /** `get_conversation_summary`. */
    function GetConversationSummary(): (s: Summary)
      reads this, conversation
      ensures s == SummaryOf(conversation.messages, conversation.context)
      ensures s.totalLength == conversation.GetContextLength()
    {
      SummaryOf(conversation.messages, conversation.context)
    }

    /** `clear_conversation`: the history is emptied, the context kept. */
    method ClearConversation()
      modifies conversation
      ensures conversation.messages == []
      ensures conversation.context == old(conversation.context) && conversation.sessionId == old(conversation.sessionId)
    {
      conversation.messages := [];
    }
  }

  /** `GrokAPIClient.__init__`: the key is the argument or the environment's, and must be
      non-empty; the model is the argument, the environment's, or the discovered one. */
  method NewClient(apiKey: Option<string>, envKey: Option<string>, baseUrl: Option<string>,
                   modelName: Option<string>, envModel: Option<string>, server: Server)
    returns (r: Result<GrokApiClient, InitError>)
    ensures var key := PyOr(apiKey, envKey);
      (key.None? || key.value == "") <==> r == Failure(MissingApiKey(MissingKeyMessage))
    ensures r.Success? ==> (fresh(r.value) && fresh(r.value.conversation)
      && r.value.apiKey == PyOr(apiKey, envKey).value
      && r.value.baseUrl == PyOr(baseUrl, Some(DefaultBaseUrl)).value
      && r.value.conversation.messages == [] && r.value.conversation.context == "")
    ensures r.Success? && PyOr(modelName, envModel).Some? && PyOr(modelName, envModel).value != "" ==>
      r.value.model == PyOr(modelName, envModel).value
    ensures var url := PyOr(baseUrl, Some(DefaultBaseUrl)).value;
      var d := FirstAvailable(GrokModels, Probe(server, url));
      var key := PyOr(apiKey, envKey);
      var name := PyOr(modelName, envModel);
      key.Some? && key.value != "" && (name.None? || name.value == "") ==>
        (r == Failure(InitInterrupted) <==> d.ProbeInterrupted?)
        && (r.Success? ==> r.value.model == ChosenModel(d))
  {
    var key := PyOr(apiKey, envKey);
    if key.None? || key.value == "" {
      return Failure(MissingApiKey(MissingKeyMessage));
    }
    var url := PyOr(baseUrl, Some(DefaultBaseUrl)).value;
    var name := PyOr(modelName, envModel);
    var model: string;
    if name.Some? && name.value != "" {
      model := name.value;
    } else {
      var interrupted;
      model, interrupted := DiscoverAvailableModel(server, url);
      if interrupted {
        return Failure(InitInterrupted);
      }
    }
    var client := new GrokApiClient(key.value, url, model, server);
    r := Success(client);
  }
}
