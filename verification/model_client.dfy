/** `ModelClient`: a client of one inference endpoint. Each of its four
    operations logs an invoke event, calls the inference SDK, checks the
    response status, and only on status 200 logs a usage event and returns a
    result. The SDK calls are parameters (`send`): functions from the SDK
    client and the request to the remote outcome. The client value is threaded
    through each call, because the two SDK clients are created lazily. */
module ModelClient {
  import opened Wrappers
  import opened Errors
  import opened Int32Text
  import opened Telemetry
  import opened ChatOptions

  /** `HttpStatusCode.OK`. */
  const StatusOK: int := 200

  datatype SdkKind = ChatCompletions | Embeddings

  /** An SDK client built from the endpoint and key. `serial` numbers the SDK
      clients a model client has constructed, so that "the same instance" can be stated. */
  datatype SdkClient = SdkClient(kind: SdkKind, endpoint: string, key: string, serial: nat)

  /** The fields of a `ModelClient`; `constructed` counts the SDK clients built so far. */
  datatype Client = Client(
    endpoint: string,
    apiKey: string,
    defaults: Option<map<string, string>>,
    completionsClient: Option<SdkClient>,
    embeddingsClient: Option<SdkClient>,
    constructed: nat)

  /** The constructor: `new AzureKeyCredential(apiKey)` rejects an empty key;
      otherwise the client stores its arguments and holds no SDK client yet. */
  function NewClient(endpoint: string, apiKey: string, defaults: Option<map<string, string>>)
    : (r: Result<Client, Error>)
    ensures r.Failure? <==> apiKey == ""
    ensures r.Failure? ==> r.error == EmptyArgument("key")
    ensures r.Success? ==>
              && r.value.endpoint == endpoint && r.value.apiKey == apiKey && r.value.defaults == defaults
              && Valid(r.value) && r.value.completionsClient.None? && r.value.embeddingsClient.None?
  {
    if apiKey == "" then Failure(EmptyArgument("key"))
    else Success(Client(endpoint, apiKey, defaults, None, None, 0))
  }

  /** A cached SDK client, if any, was built from this client's endpoint and key. */
  predicate Holds(c: Client, slot: Option<SdkClient>, kind: SdkKind) {
    slot.Some? ==>
      && slot.value.kind == kind
      && slot.value.endpoint == c.endpoint
      && slot.value.key == c.apiKey
      && slot.value.serial < c.constructed
  }

  predicate Valid(c: Client) {
    && Holds(c, c.completionsClient, ChatCompletions)
    && Holds(c, c.embeddingsClient, Embeddings)
  }

  /** `GetCompletionsClient`: builds the chat client on the first call only. */
  function GetCompletionsClient(c: Client): (r: (SdkClient, Client))
    requires Valid(c)
    ensures Valid(r.1) && r.1.completionsClient == Some(r.0)
    ensures r.0.kind == ChatCompletions && r.0.endpoint == c.endpoint && r.0.key == c.apiKey
    ensures c.completionsClient.Some? ==> r == (c.completionsClient.value, c)
    ensures r.1.embeddingsClient == c.embeddingsClient
    ensures (r.1.endpoint, r.1.apiKey, r.1.defaults) == (c.endpoint, c.apiKey, c.defaults)
  {
    match c.completionsClient
    case Some(client) => (client, c)
    case None =>
      var client := SdkClient(ChatCompletions, c.endpoint, c.apiKey, c.constructed);
      (client, c.(completionsClient := Some(client), constructed := c.constructed + 1))
  }

  /** `GetEmbeddingsClient`: builds the embeddings client on the first call only. */
  function GetEmbeddingsClient(c: Client): (r: (SdkClient, Client))
    requires Valid(c)
    ensures Valid(r.1) && r.1.embeddingsClient == Some(r.0)
    ensures r.0.kind == Embeddings && r.0.endpoint == c.endpoint && r.0.key == c.apiKey
    ensures c.embeddingsClient.Some? ==> r == (c.embeddingsClient.value, c)
    ensures r.1.completionsClient == c.completionsClient
    ensures (r.1.endpoint, r.1.apiKey, r.1.defaults) == (c.endpoint, c.apiKey, c.defaults)
  {
    match c.embeddingsClient
    case Some(client) => (client, c)
    case None =>
      var client := SdkClient(Embeddings, c.endpoint, c.apiKey, c.constructed);
      (client, c.(embeddingsClient := Some(client), constructed := c.constructed + 1))
  }

  /** A later getter call returns the instance the first one cached, and changes nothing. */
  lemma GettersCreateOnce(c: Client)
    requires Valid(c)
    ensures var (first, c1) := GetCompletionsClient(c); GetCompletionsClient(c1) == (first, c1)
    ensures var (first, c1) := GetEmbeddingsClient(c); GetEmbeddingsClient(c1) == (first, c1)
  {
  }

  // ---- requests and responses, as the SDK shapes them ----

  datatype ChatMessage = SystemMessage(content: string) | UserMessage(content: string)

  datatype ChatRequest = ChatRequest(options: Options, messages: seq<ChatMessage>)

  datatype ChatCompletion = ChatCompletion(
    model: string, content: string,
    completionTokens: int, promptTokens: int, totalTokens: int,
    created: string)

  datatype StreamingUpdate = StreamingUpdate(contentUpdate: string)

  datatype ModelInfo = ModelInfo(modelName: string, modelProviderName: string, modelType: string)

  datatype EmbeddingItem = EmbeddingItem(embedding: seq<bv8>)

  datatype EmbeddingsResult = EmbeddingsResult(
    model: string, promptTokens: int, totalTokens: int, data: seq<EmbeddingItem>)

  /** What an SDK call comes back with: an exception it raised, or a response
      with its raw status, reason phrase and value. */
  datatype Remote<V> = Raised(message: string) | Answered(status: int, reasonPhrase: string, value: V)

  predicate Succeeded<V>(remote: Remote<V>) {
    remote.Answered? && remote.status == StatusOK
  }

  /** The status check each operation makes after its SDK call. */
  function StatusGate<V>(remote: Remote<V>, failure: string): (r: Result<V, Error>)
    ensures r.Success? <==> Succeeded(remote)
    ensures r.Success? ==> r.value == remote.value
    ensures remote.Raised? ==> r == Failure(SdkFault(remote.message))
    ensures remote.Answered? && remote.status != StatusOK ==>
              r == Failure(InvalidOperation(failure + remote.reasonPhrase))
  {
    match remote
    case Raised(message) => Failure(SdkFault(message))
    case Answered(status, reason, value) =>
      if status != StatusOK then Failure(InvalidOperation(failure + reason)) else Success(value)
  }

  /** The outcome of one operation: its result, the client afterwards, the trace afterwards. */
  datatype Call<T> = Call(result: Result<T, Error>, client: Client, trace: seq<Event>)

  /** The call protocol: the trace is only extended; an invoke event for
      `operation` comes first; a usage event for `usageName` follows exactly when
      the call succeeds, and the call succeeds exactly when `ok`. */
  predicate FollowsProtocol<T>(before: seq<Event>, call: Call<T>, user: Option<User>,
                               operation: string, usageName: string, ok: bool)
  {
    && call.result.Success? == ok
    && |call.trace| == |before| + (if ok then 2 else 1)
    && call.trace[..|before|] == before
    && call.trace[|before|] == InvokeEvent(user, operation)
    && (ok ==>
          var usage := call.trace[|before| + 1];
          usage.user == Attributed(user) && usage.eventName == "usage" && usage.value == usageName)
  }

  /** An entry written with `ToString()` reads back as its number. */
  lemma ReadsBack(m: map<string, string>, key: string, n: int)
    requires key in m && m[key] == FormatInt(n)
    ensures InInt32(n) ==> ParseInt32(m[key]) == Some(n)
  {
    ParseOfFormat(n);
  }

  /** The usage entries a successful completion reports: the model, the three
      token counts as decimal text that reads back as the count, and the creation time. */
  function CompletionUsage(v: ChatCompletion): (m: map<string, string>)
    ensures m.Keys == {"model", "completion_tokens", "prompt_tokens", "total_tokens", "created"}
    ensures m["model"] == v.model && m["created"] == v.created
    ensures InInt32(v.completionTokens) ==> ParseInt32(m["completion_tokens"]) == Some(v.completionTokens)
    ensures InInt32(v.promptTokens) ==> ParseInt32(m["prompt_tokens"]) == Some(v.promptTokens)
    ensures InInt32(v.totalTokens) ==> ParseInt32(m["total_tokens"]) == Some(v.totalTokens)
  {
    var m := map[
      "model" := v.model,
      "completion_tokens" := FormatInt(v.completionTokens),
      "prompt_tokens" := FormatInt(v.promptTokens),
      "total_tokens" := FormatInt(v.totalTokens),
      "created" := v.created];
    ReadsBack(m, "completion_tokens", v.completionTokens);
    ReadsBack(m, "prompt_tokens", v.promptTokens);
    ReadsBack(m, "total_tokens", v.totalTokens);
    m
  }

  /** The usage entries of a model-info call: the three descriptive strings. */
  function ModelInfoUsage(v: ModelInfo): (m: map<string, string>)
    ensures m.Keys == {"model_name", "model_provider_name", "model_type"}
    ensures m["model_name"] == v.modelName && m["model_provider_name"] == v.modelProviderName
    ensures m["model_type"] == v.modelType
  {
    map[
      "model_name" := v.modelName,
      "model_provider_name" := v.modelProviderName,
      "model_type" := v.modelType]
  }

  /** The usage entries of an embeddings call: the model, the two token counts
      and the number of vectors, each count as decimal text that reads back as the count. */
  function EmbeddingsUsage(v: EmbeddingsResult): (m: map<string, string>)
    ensures m.Keys == {"model", "prompt_tokens", "total_tokens", "embedding_length"}
    ensures m["model"] == v.model
    ensures InInt32(v.promptTokens) ==> ParseInt32(m["prompt_tokens"]) == Some(v.promptTokens)
    ensures InInt32(v.totalTokens) ==> ParseInt32(m["total_tokens"]) == Some(v.totalTokens)
    ensures |v.data| <= MaxInt32 ==> ParseInt32(m["embedding_length"]) == Some(|v.data|)
  {
    var m := map[
      "model" := v.model,
      "prompt_tokens" := FormatInt(v.promptTokens),
      "total_tokens" := FormatInt(v.totalTokens),
      "embedding_length" := FormatInt(|v.data|)];
    ReadsBack(m, "prompt_tokens", v.promptTokens);
    ReadsBack(m, "total_tokens", v.totalTokens);
    ReadsBack(m, "embedding_length", |v.data|);
    m
  }

  /** The request `Complete` and `StreamComplete` send: the default options plus the messages. */
  function ChatRequestFor(c: Client, messages: seq<ChatMessage>, parseFloat: string -> Option<real>): (q: ChatRequest)
    ensures q.messages == messages
    ensures forall f :: Get(q.options, f) == Expected(c.defaults, f, parseFloat)
  {
    forall f ensures Get(DefaultOptions(c.defaults, parseFloat), f) == Expected(c.defaults, f, parseFloat) {
      DefaultOptionsField(c.defaults, parseFloat, f);
    }
    ChatRequest(DefaultOptions(c.defaults, parseFloat), messages)
  }

  // ---- the four operations ----

  /** The messages of the `InvalidOperationException`s, before the reason phrase. */
  const CompleteFailure: string := "Failed to complete the chat request: "
  const StreamFailure: string := "Failed to stream the chat request: "
  const ModelInfoFailure: string := "Failed to get the model info: "
  const EmbedFailure: string := "Failed to embed the text: "

  lemma CompletionKeysFresh(v: ChatCompletion)
    ensures SdkTypeKey !in CompletionUsage(v) && LatencyKey !in CompletionUsage(v)
  {
    var keys := CompletionUsage(v).Keys;
    assert keys == {"model", "completion_tokens", "prompt_tokens", "total_tokens", "created"};
  }

  lemma ModelInfoKeysFresh(info: ModelInfo)
    ensures SdkTypeKey !in ModelInfoUsage(info) && LatencyKey !in ModelInfoUsage(info)
  {
    var keys := ModelInfoUsage(info).Keys;
    assert keys == {"model_name", "model_provider_name", "model_type"};
  }

  lemma EmbeddingsKeysFresh(e: EmbeddingsResult)
    ensures SdkTypeKey !in EmbeddingsUsage(e) && LatencyKey !in EmbeddingsUsage(e)
  {
    var keys := EmbeddingsUsage(e).Keys;
    assert keys == {"model", "prompt_tokens", "total_tokens", "embedding_length"};
  }

  /** None of the usage maps the operations build holds the keys `LogUsage` adds. */
  lemma UsageKeysFresh(v: ChatCompletion, info: ModelInfo, e: EmbeddingsResult)
    ensures SdkTypeKey !in CompletionUsage(v) && LatencyKey !in CompletionUsage(v)
    ensures SdkTypeKey !in ModelInfoUsage(info) && LatencyKey !in ModelInfoUsage(info)
    ensures SdkTypeKey !in EmbeddingsUsage(e) && LatencyKey !in EmbeddingsUsage(e)
  {
    CompletionKeysFresh(v);
    ModelInfoKeysFresh(info);
    EmbeddingsKeysFresh(e);
  }

  /** The shape every operation shares around its SDK call, whose outcome is
      `remote`: log the invoke event, check the status, and only on status 200
      log the usage event and return the operation's result. */
  function Instrumented<V, T>(c1: Client, trace: seq<Event>, user: Option<User>, operation: string,
                              usageName: string, remote: Remote<V>, failure: string,
                              usage: V -> Option<map<string, string>>, project: V -> T,
                              invokeTime: int, finishTime: int): (r: Call<T>)
    requires Succeeded(remote) ==>
               SdkTypeKey !in usage(remote.value).GetOr(map[]) && LatencyKey !in usage(remote.value).GetOr(map[])
    ensures r.client == c1
    ensures FollowsProtocol(trace, r, user, operation, usageName, Succeeded(remote))
    ensures !Succeeded(remote) ==> r.result.error == StatusGate(remote, failure).error
    ensures Succeeded(remote) ==>
              && r.result.value == project(remote.value)
              && r.trace[|trace| + 1] ==
                   UsageEvent(user, usageName, usage(remote.value).GetOr(map[]), InvokeContext(invokeTime), finishTime)
  {
    InvokeLogged(trace, user, operation, invokeTime);
    var (invoked, ic) := LogInvoke(trace, user, operation, invokeTime);
    match StatusGate(remote, failure)
    case Failure(e) => Call(Failure(e), c1, invoked)
    case Success(v) =>
      LogUsageWithContext(invoked, user, usageName, usage(v), ic, finishTime);
      match LogUsage(invoked, user, usageName, usage(v), Some(ic), finishTime)
      case Failure(e) => Call(Failure(e), c1, invoked)
      case Success(logged) => Call(Success(project(v)), c1, logged)
  }

  /** `Complete(messages, user)`. */
  function Complete(c: Client, trace: seq<Event>, messages: seq<ChatMessage>, user: Option<User>,
                    parseFloat: string -> Option<real>,
                    send: (SdkClient, ChatRequest) -> Remote<ChatCompletion>,
                    invokeTime: int, finishTime: int): (r: Call<string>)
    requires Valid(c)
    ensures var remote := send(GetCompletionsClient(c).0, ChatRequestFor(c, messages, parseFloat));
      && FollowsProtocol(trace, r, user, "complete", "complete", Succeeded(remote))
      && (!Succeeded(remote) ==> r.result.error == StatusGate(remote, CompleteFailure).error)
      && (Succeeded(remote) ==>
            && r.result.value == remote.value.content
            && r.trace[|trace| + 1] ==
                 UsageEvent(user, "complete", CompletionUsage(remote.value), InvokeContext(invokeTime), finishTime))
    ensures Valid(r.client) && r.client.completionsClient.Some?
    ensures r.client == GetCompletionsClient(c).1
  {
    var request := ChatRequestFor(c, messages, parseFloat);
    var (sdk, c1) := GetCompletionsClient(c);
    var remote := send(sdk, request);
    UsageKeysFresh(if Succeeded(remote) then remote.value else ChatCompletion("", "", 0, 0, 0, ""),
                   ModelInfo("", "", ""), EmbeddingsResult("", 0, 0, []));
    Instrumented(c1, trace, user, "complete", "complete", remote, CompleteFailure,
                 (v: ChatCompletion) => Some(CompletionUsage(v)), (v: ChatCompletion) => v.content,
                 invokeTime, finishTime)
  }

  /** `StreamComplete(messages, user)`: on success it logs a "stream_begin" usage
      event with no usage entries and returns the stream of updates. No event is
      logged when the stream ends. */
  function StreamComplete(c: Client, trace: seq<Event>, messages: seq<ChatMessage>, user: Option<User>,
                          parseFloat: string -> Option<real>,
                          send: (SdkClient, ChatRequest) -> Remote<seq<StreamingUpdate>>,
                          invokeTime: int, finishTime: int): (r: Call<seq<StreamingUpdate>>)
    requires Valid(c)
    ensures var remote := send(GetCompletionsClient(c).0, ChatRequestFor(c, messages, parseFloat));
      && FollowsProtocol(trace, r, user, "stream", "stream_begin", Succeeded(remote))
      && (!Succeeded(remote) ==> r.result.error == StatusGate(remote, StreamFailure).error)
      && (Succeeded(remote) ==>
            && r.result.value == remote.value
            && r.trace[|trace| + 1] == UsageEvent(user, "stream_begin", map[], InvokeContext(invokeTime), finishTime))
    ensures Valid(r.client) && r.client.completionsClient.Some?
    ensures r.client == GetCompletionsClient(c).1
  {
    var request := ChatRequestFor(c, messages, parseFloat);
    var (sdk, c1) := GetCompletionsClient(c);
    Instrumented(c1, trace, user, "stream", "stream_begin", send(sdk, request), StreamFailure,
                 (updates: seq<StreamingUpdate>) => None, (updates: seq<StreamingUpdate>) => updates,
                 invokeTime, finishTime)
  }

  /** `GetModelInfo(user)`. */
  function GetModelInfo(c: Client, trace: seq<Event>, user: Option<User>,
                        send: SdkClient -> Remote<ModelInfo>,
                        invokeTime: int, finishTime: int): (r: Call<ModelInfo>)
    requires Valid(c)
    ensures var remote := send(GetCompletionsClient(c).0);
      && FollowsProtocol(trace, r, user, "getInfo", "get_model_info", Succeeded(remote))
      && (!Succeeded(remote) ==> r.result.error == StatusGate(remote, ModelInfoFailure).error)
      && (Succeeded(remote) ==>
            && r.result.value == remote.value
            && r.trace[|trace| + 1] ==
                 UsageEvent(user, "get_model_info", ModelInfoUsage(remote.value), InvokeContext(invokeTime), finishTime))
    ensures Valid(r.client) && r.client.completionsClient.Some?
    ensures r.client == GetCompletionsClient(c).1
  {
    var (sdk, c1) := GetCompletionsClient(c);
    var remote := send(sdk);
    UsageKeysFresh(ChatCompletion("", "", 0, 0, 0, ""),
                   if Succeeded(remote) then remote.value else ModelInfo("", "", ""), EmbeddingsResult("", 0, 0, []));
    Instrumented(c1, trace, user, "getInfo", "get_model_info", remote, ModelInfoFailure,
                 (info: ModelInfo) => Some(ModelInfoUsage(info)), (info: ModelInfo) => info,
                 invokeTime, finishTime)
  }

  /** The embedding vectors of a response, one per data item, in order. */
  function Vectors(data: seq<EmbeddingItem>): (vs: seq<seq<bv8>>)
    ensures |vs| == |data|
    ensures forall i :: 0 <= i < |data| ==> vs[i] == data[i].embedding
  {
    seq(|data|, i requires 0 <= i < |data| => data[i].embedding)
  }

  /** `GetEmbeddings(input, user)`: the request is the input strings; the result
      has one vector per response item, in the response's order. */
  function GetEmbeddings(c: Client, trace: seq<Event>, input: seq<string>, user: Option<User>,
                         send: (SdkClient, seq<string>) -> Remote<EmbeddingsResult>,
                         invokeTime: int, finishTime: int): (r: Call<seq<seq<bv8>>>)
    requires Valid(c)
    ensures var remote := send(GetEmbeddingsClient(c).0, input);
      && FollowsProtocol(trace, r, user, "getEmbeddings", "getEmbeddings", Succeeded(remote))
      && (!Succeeded(remote) ==> r.result.error == StatusGate(remote, EmbedFailure).error)
      && (Succeeded(remote) ==>
            && |r.result.value| == |remote.value.data|
            && (forall i :: 0 <= i < |remote.value.data| ==> r.result.value[i] == remote.value.data[i].embedding)
            && r.trace[|trace| + 1] ==
                 UsageEvent(user, "getEmbeddings", EmbeddingsUsage(remote.value), InvokeContext(invokeTime), finishTime))
    ensures Valid(r.client) && r.client.embeddingsClient.Some?
    ensures r.client == GetEmbeddingsClient(c).1
  {
    var (sdk, c1) := GetEmbeddingsClient(c);
    var remote := send(sdk, input);
    UsageKeysFresh(ChatCompletion("", "", 0, 0, 0, ""), ModelInfo("", "", ""),
                   if Succeeded(remote) then remote.value else EmbeddingsResult("", 0, 0, []));
    Instrumented(c1, trace, user, "getEmbeddings", "getEmbeddings", remote, EmbedFailure,
                 (e: EmbeddingsResult) => Some(EmbeddingsUsage(e)), (e: EmbeddingsResult) => Vectors(e.data),
                 invokeTime, finishTime)
  }

  /** A successful completion reports its token counts, and, on a clock that did
      not run backwards, a latency written as plain digits whose value is the elapsed time. */
  lemma CompleteReportsUsage(c: Client, trace: seq<Event>, messages: seq<ChatMessage>, user: Option<User>,
                             parseFloat: string -> Option<real>,
                             send: (SdkClient, ChatRequest) -> Remote<ChatCompletion>,
                             invokeTime: int, finishTime: int)
    requires Valid(c) && invokeTime <= finishTime
    requires forall sdk, request :: Succeeded(send(sdk, request))
    ensures var r := Complete(c, trace, messages, user, parseFloat, send, invokeTime, finishTime);
      var meta := r.trace[|trace| + 1].metadata;
      && (forall k :: k in {"completion_tokens", "prompt_tokens", "total_tokens", SdkTypeKey, LatencyKey} ==> k in meta)
      && meta[SdkTypeKey] == SdkType
      && AllDigits(meta[LatencyKey])
      && DigitsValue(meta[LatencyKey]) == finishTime - invokeTime
  {
    assert Succeeded(send(GetCompletionsClient(c).0, ChatRequestFor(c, messages, parseFloat)));
    LatencyIsNonNegative(invokeTime, finishTime);
  }

  // ---- the (system, user) text overloads ----

  function TextConversation(systemMessage: string, userMessage: string): seq<ChatMessage> {
    [SystemMessage(systemMessage), UserMessage(userMessage)]
  }

  /** `Complete(systemMessage, userMessage, user)` as written: it forwards the two
      messages but not `user`, so the events are attributed to a fresh user. */
  function CompleteTextAsWritten(c: Client, trace: seq<Event>, systemMessage: string, userMessage: string,
                                 user: Option<User>, parseFloat: string -> Option<real>,
                                 send: (SdkClient, ChatRequest) -> Remote<ChatCompletion>,
                                 invokeTime: int, finishTime: int): (r: Call<string>)
    requires Valid(c)
    ensures var remote := send(GetCompletionsClient(c).0,
                               ChatRequestFor(c, TextConversation(systemMessage, userMessage), parseFloat));
      FollowsProtocol(trace, r, None, "complete", "complete", Succeeded(remote))
  {
    Complete(c, trace, TextConversation(systemMessage, userMessage), None, parseFloat, send, invokeTime, finishTime)
  }

  /** The caller's user never reaches the invoke event of the as-written overload. */
  lemma CompleteTextLosesUser(c: Client, trace: seq<Event>, systemMessage: string, userMessage: string,
                              id: string, parseFloat: string -> Option<real>,
                              send: (SdkClient, ChatRequest) -> Remote<ChatCompletion>,
                              invokeTime: int, finishTime: int)
    requires Valid(c)
    ensures var user := Some(User(Some(id), map[]));
      CompleteTextAsWritten(c, trace, systemMessage, userMessage, user, parseFloat, send, invokeTime, finishTime)
        .trace[|trace|].user != Attributed(user)
  {
  }

  /** `Complete(systemMessage, userMessage, user)` with `user` passed on. */
  function CompleteText(c: Client, trace: seq<Event>, systemMessage: string, userMessage: string,
                        user: Option<User>, parseFloat: string -> Option<real>,
                        send: (SdkClient, ChatRequest) -> Remote<ChatCompletion>,
                        invokeTime: int, finishTime: int): (r: Call<string>)
    requires Valid(c)
    ensures var remote := send(GetCompletionsClient(c).0,
                               ChatRequestFor(c, TextConversation(systemMessage, userMessage), parseFloat));
      && FollowsProtocol(trace, r, user, "complete", "complete", Succeeded(remote))
      && (Succeeded(remote) ==> r.result.value == remote.value.content)
  {
    Complete(c, trace, TextConversation(systemMessage, userMessage), user, parseFloat, send, invokeTime, finishTime)
  }

  /** `StreamComplete(systemMessage, userMessage, user)` as written: `user` is dropped here too. */
  function StreamCompleteTextAsWritten(c: Client, trace: seq<Event>, systemMessage: string, userMessage: string,
                                       user: Option<User>, parseFloat: string -> Option<real>,
                                       send: (SdkClient, ChatRequest) -> Remote<seq<StreamingUpdate>>,
                                       invokeTime: int, finishTime: int): (r: Call<seq<StreamingUpdate>>)
    requires Valid(c)
    ensures var remote := send(GetCompletionsClient(c).0,
                               ChatRequestFor(c, TextConversation(systemMessage, userMessage), parseFloat));
      FollowsProtocol(trace, r, None, "stream", "stream_begin", Succeeded(remote))
  {
    StreamComplete(c, trace, TextConversation(systemMessage, userMessage), None, parseFloat, send, invokeTime, finishTime)
  }

  lemma StreamCompleteTextLosesUser(c: Client, trace: seq<Event>, systemMessage: string, userMessage: string,
                                    id: string, parseFloat: string -> Option<real>,
                                    send: (SdkClient, ChatRequest) -> Remote<seq<StreamingUpdate>>,
                                    invokeTime: int, finishTime: int)
    requires Valid(c)
    ensures var user := Some(User(Some(id), map[]));
      StreamCompleteTextAsWritten(c, trace, systemMessage, userMessage, user, parseFloat, send, invokeTime, finishTime)
        .trace[|trace|].user != Attributed(user)
  {
  }

  /** `StreamComplete(systemMessage, userMessage, user)` with `user` passed on. */
  function StreamCompleteText(c: Client, trace: seq<Event>, systemMessage: string, userMessage: string,
                              user: Option<User>, parseFloat: string -> Option<real>,
                              send: (SdkClient, ChatRequest) -> Remote<seq<StreamingUpdate>>,
                              invokeTime: int, finishTime: int): (r: Call<seq<StreamingUpdate>>)
    requires Valid(c)
    ensures var remote := send(GetCompletionsClient(c).0,
                               ChatRequestFor(c, TextConversation(systemMessage, userMessage), parseFloat));
      && FollowsProtocol(trace, r, user, "stream", "stream_begin", Succeeded(remote))
      && (Succeeded(remote) ==> r.result.value == remote.value)
  {
    StreamComplete(c, trace, TextConversation(systemMessage, userMessage), user, parseFloat, send, invokeTime, finishTime)
  }
}
