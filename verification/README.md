# azureai-dotnet adapter, modelled in Dafny

This project models the self-contained logic of the Statsig adapter for Azure AI
Inference (`Statsig.AzureAI`). The adapter forwards chat, streaming-chat,
model-info and embedding calls to an inference endpoint. It logs an "invoke"
telemetry event before each call and a "usage" event after each successful one.

The model covers:

- **Default options** (`ChatOptions`): how `ModelClient.GetDefaultOptions` reads the
  client's string-to-string defaults into chat request options.
  - Each recognised key sets only its own field, and only when its value parses.
  - `max_tokens` must be a positive Int32; `seed` may be any Int32.
  - `stop`, unknown keys and unparsable values are ignored without error.
- **Decimal integers** (`Int32Text`): `int.TryParse` in its default integer style, and
  `ToString()` for the counters the usage events carry.
- **Telemetry** (`Telemetry`): the attributed user, the invoke event, and the usage
  metadata with its `Dictionary.Add` failure on a duplicate key.
- **Client calls** (`ModelClient`):
  - the lazily built SDK clients;
  - the status-gated protocol of `Complete`, `StreamComplete`, `GetModelInfo` and
    `GetEmbeddings`: invoke event first, then a usage event and a result only on
    status 200.
- **Client factories** (`Server`): `GetModelClient` resolves the endpoint, key and
  defaults from a dynamic config. Config values win over the supplied defaults. The
  call fails when the endpoint or the key is null or empty. `GetModelClientFromEndpoint`
  adds no check of its own; like every construction it fails on an empty key, because
  `new AzureKeyCredential` rejects one.
- **The test `.env` loader** (`DotEnv`):
  - exact `Split('=', RemoveEmptyEntries)` semantics;
  - a line is kept only when it has exactly two tokens; nothing is trimmed; the last line wins;
  - the indexer falls back to the environment, caches what it finds, and returns "" rather than null.

Where the code and a plain reading of the adapter's behaviour differ, the model follows the code:

- A `.env.local` line is not required to hold exactly one '='. It is kept when removing empty pieces leaves exactly two, so "A==B" and "=A=B" are read as A=B.
- `latency_ms` is the difference of two clock readings. It is non-negative only when the clock does not run backwards, which `Telemetry.LatencyIsNonNegative` assumes.
- `GetEmbeddings` returns one vector per item of the response, in the response's order. That this is one per input string is the inference service's promise, not this code's.

The inputs the adapter does not compute itself are parameters:

- The inference SDK is the `send` functions: SDK client and request in, remote outcome out.
- The outcome is either a raised fault or a status, reason phrase and value.
- `float.TryParse` is `parseFloat`.
- Clock readings are integers (Unix milliseconds).
- `StatsigServer.GetConfigSync` is `fetch`.
- The environment is a map; the `.env.local` file is its lines, or `None` when it is absent.
- Telemetry events are appended to a trace.

## Model

| member | source | states |
|---|---|---|
| Int32Text.ParseInt32 | azureai-statsig/src/Statsig/AzureAI/ModelClient.cs:194-195 | A successful `int.TryParse` always yields a value within the Int32 range |
| Int32Text.ParseOfFormat | azureai-statsig/src/Statsig/AzureAI/ModelClient.cs:60-62 | Reading back any integer's `ToString()` gives that integer if it is an Int32, and a rejection otherwise |
| Int32Text.ParseFormatRoundTrip | azureai-statsig/src/Statsig/AzureAI/ModelClient.cs:221-223 | Every Int32 written in decimal is parsed back to itself, so every Int32 seed text is accepted |
| Int32Text.ParseRejectsOutOfRange | azureai-statsig/src/Statsig/AzureAI/ModelClient.cs:194-195 | Any white-padded, optionally signed run of digits, leading zeros included, whose value lies outside the Int32 range is rejected |
| Int32Text.ParseWellFormed | azureai-statsig/src/Statsig/AzureAI/ModelClient.cs:194-195 | Any white-padded, optionally signed run of ASCII digits, leading zeros included, reads as its value when that is an Int32 and is rejected otherwise |
| Int32Text.ParseAcceptsOnlyIntegerText | azureai-statsig/src/Statsig/AzureAI/ModelClient.cs:194-195 | Conversely, every text that parses splits into white space, an optional sign, a non-empty run of ASCII digits and white space, and parses to the signed value of those digits |
| Int32Text.ParseInt32Iff | azureai-statsig/src/Statsig/AzureAI/ModelClient.cs:194-195 | `int.TryParse` returns true with n if and only if the text is white-padded, optionally signed ASCII digits whose value is n and n is an Int32 |
| Int32Text.ParseRejectsMisplaced | azureai-statsig/src/Statsig/AzureAI/ModelClient.cs:194-195 | White space or a sign inside the digits, a doubled sign, or white space alone is rejected: "1 2", "1-2", "+-1" and "  " |
| Int32Text.FormatInt | azureai-statsig/src/Statsig/AzureAI/ModelClient.cs:60-62 | `ToString()` of an integer: a leading '-' exactly for negatives, then canonical digits (no leading zero unless the number is 0) whose value is the magnitude |
| Int32Text.ParseRejectsForeignChar | azureai-statsig/src/Statsig/AzureAI/ModelClient.cs:195 | A value containing any character other than white space, sign or digit (such as "abc") never parses |
| Int32Text.ParseExamples | azureai-statsig/src/Statsig/AzureAI/ModelClient.cs:193-198 | "0" parses to 0 and "-5" to -5; "", "-" and "abc" are rejected |
| Int32Text.ParseSkipsWhiteSpace | azureai-statsig/src/Statsig/AzureAI/ModelClient.cs:195 | Surrounding white space and a leading plus sign are accepted: " +7\t" is 7 |
| ChatOptions.FieldOfKey | azureai-statsig/src/Statsig/AzureAI/ModelClient.cs:186-225 | The switch sends a key to a field exactly when the key is that field's name; "stop" and unknown keys reach no field |
| ChatOptions.Assign | azureai-statsig/src/Statsig/AzureAI/ModelClient.cs:187-225 | One case of the switch: its own field takes the accepted setting when the parse succeeds and stays as it was otherwise; every other field is unchanged |
| ChatOptions.ApplyEntry | azureai-statsig/src/Statsig/AzureAI/ModelClient.cs:185-227 | One dictionary entry: a key naming no field (including "stop") changes nothing; the field the key names takes the accepted value, if any; all other fields are unchanged |
| ChatOptions.AssignEffect | azureai-statsig/src/Statsig/AzureAI/ModelClient.cs:187-225 | One case of the switch changes only its own field, and only when its parse succeeds |
| ChatOptions.ApplyEntryEffect | azureai-statsig/src/Statsig/AzureAI/ModelClient.cs:185-227 | One dictionary entry sets the field named by its key to the accepted value; every other field is unchanged |
| ChatOptions.GetDefaultOptions | azureai-statsig/src/Statsig/AzureAI/ModelClient.cs:179-229 | For any enumeration order, the loop over the dictionary yields the field-by-field reference options; null defaults give all fields unset |
| ChatOptions.DefaultOptionsField | azureai-statsig/src/Statsig/AzureAI/ModelClient.cs:185-228 | Each field of the result is set exactly when its key is present and its value is accepted, and then holds the parsed value |
| ChatOptions.NoDefaultsNoOptions | azureai-statsig/src/Statsig/AzureAI/ModelClient.cs:180-183 | With a null defaults map every option field is unset |
| ChatOptions.MaxTokensRule | azureai-statsig/src/Statsig/AzureAI/ModelClient.cs:193-198 | `max_tokens` is set to n if and only if its value parses as the Int32 n and n > 0 |
| ChatOptions.MaxTokensRejects | azureai-statsig/src/Statsig/AzureAI/ModelClient.cs:193-198 | "0", "-5" and "abc" leave `max_tokens` unset |
| ChatOptions.SeedRule | azureai-statsig/src/Statsig/AzureAI/ModelClient.cs:220-225 | `seed` is whatever Int32 its value parses as, zero and negatives included, and unset otherwise |
| ChatOptions.TemperatureRule | azureai-statsig/src/Statsig/AzureAI/ModelClient.cs:187-192 | `temperature` holds what float parsing reads, and stays unset when parsing fails |
| ChatOptions.IgnoredKeyChangesNothing | azureai-statsig/src/Statsig/AzureAI/ModelClient.cs:186-226 | Adding an entry whose key names no field leaves every option unchanged, and no input raises an error |
| ChatOptions.StopChangesNothing | azureai-statsig/src/Statsig/AzureAI/ModelClient.cs:217-219 | A "stop" entry, whatever its value, changes no option |
| Telemetry.Attributed | azureai-statsig/src/Statsig/AzureAI/ModelClient.cs:235-236 | The logged user carries sdk_type = azureai-dotnet, keeps the caller's id and other custom ids, and is a fresh user when none is given |
| Telemetry.LogInvoke | azureai-statsig/src/Statsig/AzureAI/ModelClient.cs:231-251 | The earlier events are kept and exactly one is appended: an "invoke" event for the operation, attributed to the tagged user, whose only metadata entry is sdk_type = azureai-dotnet; the context records the clock reading |
| Telemetry.UsageMetadata | azureai-statsig/src/Statsig/AzureAI/ModelClient.cs:262-269 | The metadata keeps every usage entry, always has sdk_type = azureai-dotnet, and has latency_ms (the elapsed time) if and only if a context was passed; a key already present fails as Dictionary.Add does, naming that key |
| Telemetry.LogUsage | azureai-statsig/src/Statsig/AzureAI/ModelClient.cs:253-277 | Fails, logging nothing, exactly when usage already holds sdk_type, or latency_ms with a context, naming the duplicate key; otherwise keeps the earlier events and appends exactly one "usage" event for the operation, attributed to the tagged user and carrying the built metadata |
| Telemetry.LogUsageWithContext | azureai-statsig/src/Statsig/AzureAI/ModelClient.cs:262-276 | With a context and usage entries free of the added keys, logging never fails and appends exactly the expected usage event |
| Telemetry.LatencyIsNonNegative | azureai-statsig/src/Statsig/AzureAI/ModelClient.cs:264-268 | On a clock that does not run backwards, latency_ms is plain digits whose value is the elapsed milliseconds |
| ModelClient.NewClient | azureai-statsig/src/Statsig/AzureAI/ModelClient.cs:16-24 | Construction fails exactly on an empty key, as `new AzureKeyCredential` does; otherwise the client stores its endpoint, key and defaults and holds no SDK client yet |
| ModelClient.GetCompletionsClient | azureai-statsig/src/Statsig/AzureAI/ModelClient.cs:159-167 | After the call the chat client is cached and built from the client's endpoint and key; an existing one is returned unchanged |
| ModelClient.GetEmbeddingsClient | azureai-statsig/src/Statsig/AzureAI/ModelClient.cs:169-177 | The same create-once rule for the embeddings client, leaving the chat client untouched |
| ModelClient.GettersCreateOnce | azureai-statsig/src/Statsig/AzureAI/ModelClient.cs:159-177 | Every later getter call returns the instance the first call built, and changes nothing |
| ModelClient.Instrumented | azureai-statsig/src/Statsig/AzureAI/ModelClient.cs:45-67 | The shape shared by the four operations: the invoke event comes first; the call succeeds exactly on status 200, with one usage event carrying the operation's usage entries, sdk_type and latency, and the projected result; otherwise it fails with the status message or the SDK fault and logs no usage event |
| ModelClient.ChatRequestFor | azureai-statsig/src/Statsig/AzureAI/ModelClient.cs:42-43 | The chat request carries the caller's messages and options equal to the defaults reference |
| ModelClient.UsageKeysFresh | azureai-statsig/src/Statsig/AzureAI/ModelClient.cs:55-66 | No usage map an operation builds contains sdk_type or latency_ms, so usage logging cannot fail |
| ModelClient.CompletionUsage | azureai-statsig/src/Statsig/AzureAI/ModelClient.cs:58-64 | Exactly the keys model, completion_tokens, prompt_tokens, total_tokens and created; model and created are copied, and each Int32 token count is text that `int.TryParse` reads back as that count |
| ModelClient.ModelInfoUsage | azureai-statsig/src/Statsig/AzureAI/ModelClient.cs:118-122 | Exactly the keys model_name, model_provider_name and model_type, holding the info's name, provider and type |
| ModelClient.EmbeddingsUsage | azureai-statsig/src/Statsig/AzureAI/ModelClient.cs:147-152 | Exactly the keys model, prompt_tokens, total_tokens and embedding_length; each count, including the number of vectors, is text that `int.TryParse` reads back as that count |
| ModelClient.Complete | azureai-statsig/src/Statsig/AzureAI/ModelClient.cs:38-68 | Invoke "complete" is logged first. A result and a usage event (model, token counts, created, sdk_type, latency) follow if and only if the status is 200; otherwise the call fails with no usage event. The client afterwards is exactly what `GetCompletionsClient` leaves: endpoint, key and defaults unchanged, the cached chat client created once |
| ModelClient.StreamComplete | azureai-statsig/src/Statsig/AzureAI/ModelClient.cs:82-102 | Invoke "stream" is logged first. Only on status 200 is a "stream_begin" usage event with just sdk_type and latency logged and the stream returned; no end event is logged. The client afterwards is exactly what `GetCompletionsClient` leaves: endpoint, key and defaults unchanged, the cached chat client created once |
| ModelClient.GetModelInfo | azureai-statsig/src/Statsig/AzureAI/ModelClient.cs:104-126 | Invoke "getInfo" is logged first. Only on status 200 are a "get_model_info" usage event (name, provider, type) and the info produced. The client afterwards is exactly what `GetCompletionsClient` leaves: endpoint, key and defaults unchanged, the cached chat client created once |
| ModelClient.GetEmbeddings | azureai-statsig/src/Statsig/AzureAI/ModelClient.cs:128-157 | Invoke "getEmbeddings" is logged first. Only on status 200 is a usage event logged; the result then has one vector per response item, in order. The client afterwards is exactly what `GetEmbeddingsClient` leaves: endpoint, key and defaults unchanged, the cached embeddings client created once |
| ModelClient.Vectors | azureai-statsig/src/Statsig/AzureAI/ModelClient.cs:155-156 | The result has exactly one embedding per data item, position by position |
| ModelClient.CompleteReportsUsage | azureai-statsig/src/Statsig/AzureAI/ModelClient.cs:55-66 | A successful completion's usage event holds the three token counts, sdk_type, and a non-negative latency equal to the elapsed time |
| ModelClient.CompleteTextAsWritten | azureai-statsig/src/Statsig/AzureAI/ModelClient.cs:26-36 | As written, the two-string overload logs its events for a fresh user whatever user it is given |
| ModelClient.CompleteTextLosesUser | azureai-statsig/src/Statsig/AzureAI/ModelClient.cs:29-35 | The invoke event of the as-written overload never carries the caller's user |
| ModelClient.CompleteText | azureai-statsig/src/Statsig/AzureAI/ModelClient.cs:26-36 | With `user` passed on, the overload follows the protocol for the caller's user and returns the completion text |
| ModelClient.StreamCompleteTextAsWritten | azureai-statsig/src/Statsig/AzureAI/ModelClient.cs:70-80 | As written, the two-string streaming overload logs its events for a fresh user |
| ModelClient.StreamCompleteTextLosesUser | azureai-statsig/src/Statsig/AzureAI/ModelClient.cs:73-79 | The invoke event of that overload never carries the caller's user |
| ModelClient.StreamCompleteText | azureai-statsig/src/Statsig/AzureAI/ModelClient.cs:70-80 | With `user` passed on, the streaming overload follows the protocol for the caller's user |
| Server.GetModelClientFromEndpoint | azureai-statsig/src/Statsig/AzureAI/Server.cs:15-20 | No lookup: it fails exactly on an empty key; otherwise the client has exactly the given endpoint and key, and null defaults |
| Server.GetModelClient | azureai-statsig/src/Statsig/AzureAI/Server.cs:22-43 | Config endpoint and key win over the defaults, and completion_defaults falls back to an empty map. The call fails if and only if the resolved endpoint or key is null or empty; otherwise the client carries exactly the resolved values |
| Server.MissingKeyFails | azureai-statsig/src/Statsig/AzureAI/Server.cs:30-42 | A config without `key` and no default key fails with the configuration error |
| Server.NoDefaultsEitherWay | azureai-statsig/src/Statsig/AzureAI/Server.cs:15-34 | Both factories, without completion defaults, yield clients whose request options are all unset |
| DotEnv.SplitAll | azureai-statsig-tests/DotEnv.cs:16 | `Split('=')` yields at least one piece, and no piece contains '=' |
| DotEnv.JoinSplit | azureai-statsig-tests/DotEnv.cs:16 | Joining the pieces of `Split('=')` with '=' gives the line back |
| DotEnv.RemoveEmpty | azureai-statsig-tests/DotEnv.cs:16 | RemoveEmptyEntries keeps only non-empty pieces of the split and keeps every one of them; a single piece survives exactly when it is non-empty, and a split without empty pieces is kept whole |
| DotEnv.Tokens | azureai-statsig-tests/DotEnv.cs:16 | `Split('=', RemoveEmptyEntries)`: every token is non-empty and free of '=' |
| DotEnv.TokensAtSeparator | azureai-statsig-tests/DotEnv.cs:16 | The tokens of x '=' y are the tokens of x followed by those of y |
| DotEnv.TokensCoverLine | azureai-statsig-tests/DotEnv.cs:16 | The tokens, concatenated, are exactly the line with every '=' removed: no character is trimmed |
| DotEnv.ParseLineIff | azureai-statsig-tests/DotEnv.cs:16-20 | A line is read as the entry (k, v) if and only if k and v are non-empty, free of '=', and the line is a run of '=', k, one or more '=', v, and a run of '=' |
| DotEnv.ParseLineShape | azureai-statsig-tests/DotEnv.cs:16-20 | Every line that is read as an entry has that shape, with its two tokens as key and value |
| DotEnv.ParseLineAccepts | azureai-statsig-tests/DotEnv.cs:16-20 | Any key and value with one or more '=' between them and '=' runs around them give that key and value |
| DotEnv.ParseLineExamples | azureai-statsig-tests/DotEnv.cs:16-20 | "A=B", "A==B" and "=A=B" all give A and B |
| DotEnv.ParseLineKeepsSpaces | azureai-statsig-tests/DotEnv.cs:16-20 | " A = B " gives the key " A " and the value " B " |
| DotEnv.ParseLineRejects | azureai-statsig-tests/DotEnv.cs:16-18 | "A=B=C", "A=" and "" are skipped |
| DotEnv.Load | azureai-statsig-tests/DotEnv.cs:8-22 | An absent file leaves the map unchanged. Otherwise each key holds the value of its last parsing line, or its earlier value |
| DotEnv.LastLineWins | azureai-statsig-tests/DotEnv.cs:20 | A line is overridden only by a later line with the same key |
| DotEnv.Lookup | azureai-statsig-tests/DotEnv.cs:24-37 | Returns the loaded value, else the environment value, else "". Caches a found environment value and changes no other key |
| DotEnv.FoundValueSticks | azureai-statsig-tests/DotEnv.cs:26-33 | After a value is found, later lookups return it even if the environment changes |
| DotEnv.MissIsNotCached | azureai-statsig-tests/DotEnv.cs:30-35 | A key missing everywhere returns "" and is not cached, so the next lookup consults the environment again |

## Findings

| source | as written | input that shows it | evidently intended | confidence | as-written member | corrected member |
|---|---|---|---|---|---|---|
| azureai-statsig/src/Statsig/AzureAI/ModelClient.cs:35 | `Complete(systemMessage, userMessage, user)` calls `this.Complete(messages)`; `user` is not forwarded | any call with a user whose id is set: the invoke and usage events carry a fresh user instead | forward `user` so that the events are attributed to the caller | not executed; high (the parameter is otherwise unused) | ModelClient.CompleteTextAsWritten | ModelClient.CompleteText |
| azureai-statsig/src/Statsig/AzureAI/ModelClient.cs:79 | `StreamComplete(systemMessage, userMessage, user)` calls `this.StreamComplete(messages)`; `user` is not forwarded | the same, for the streaming overload | forward `user` | not executed; high (the parameter is otherwise unused) | ModelClient.StreamCompleteTextAsWritten | ModelClient.StreamCompleteText |

`CompleteTextLosesUser` and `StreamCompleteTextLosesUser` prove the discrepancy.

## Left out

- `Server.Initialize`, `Server.Shutdown` and `Server.GetStatsigServer`: process-wide lifecycle of the telemetry SDK, with no logic of their own.
- `StatsigServer.LogEvent` delivery: events are appended to a trace. Event batching and delivery belong to the telemetry SDK.
- `StatsigServer.GetConfigSync` and `DynamicConfig.Get<T>`: the config record is the result of `fetch`.
  - `Get` is taken to return an entry that is present with the requested shape, and the default otherwise.
  - How the telemetry SDK converts JSON values (such as a JSON null) is not part of this model.
- The inference SDK calls (`CompleteAsync`, `CompleteStreamingAsync`, `GetModelInfoAsync`, `EmbedAsync`) are the `send` parameters. Their network behaviour, and any exception they raise for a non-success status, are foreign code.
- `async`/`await` and the lazy `IAsyncEnumerable` stream: only the sequential effect is modelled. The stream is returned as the sequence of updates. No "stream_end" event is logged, as in the source.
- `new Uri(endpoint)` in the `ModelClient` constructor: URI validation belongs to the runtime. A malformed endpoint, which throws there, is accepted by `NewClient`. The constructor's other check, `new AzureKeyCredential` rejecting an empty key, is modelled.
- `float.TryParse` and float values: float parsing is the opaque `parseFloat`, and the float fields hold whatever it returns.
- Int32Text.ParseInt32: culture-specific signs and the trailing NUL characters the runtime also tolerates are not modelled. The invariant culture is assumed. Digits are only '0' to '9', in the model and in the runtime alike.
- Int32Text.FormatInt: culture-specific negative signs are not modelled. `DateTimeOffset.ToString()` and `ModelType.ToString()` are taken as the text the SDK supplies (`created`, `modelType`).
- `StatsigUser.AddCustomID` mutates the caller's user object in place. Only the resulting value is modelled, not the aliasing. Utils.cs performs the same tagging and is covered by `Telemetry.Attributed`.
- The SDK-client getters take `Valid(c)`: every cached SDK client was built from the client's endpoint and key. Every client built by `NewClient` satisfies it, and every operation preserves it.
- Wall-clock reads are the `invokeTime` and `finishTime` parameters. Latency is their difference, written as the runtime writes an Int64.
- `DotEnv.Load`: the working directory, `File.Exists` and `File.ReadAllLines` are replaced by the file's lines. Line splitting and encoding are not modelled.
- `DotEnv` indexer: `Environment.GetEnvironmentVariable` is a map lookup, where a missing key stands for null.
- ModelClient.CompleteReportsUsage: it is stated for a `send` that answers every request with status 200, not for one that only accepts this request. This keeps its precondition simple.
- Program.cs is a manual harness that needs live services.
