/** `Server`: the two factories that build a `ModelClient`. The telemetry
    server's `GetConfigSync` is the parameter `fetch`, from the attributed user
    and the config id to the config record's entries. */
module Server {
  import opened Wrappers
  import opened Errors
  import opened Telemetry
  import opened ChatOptions
  import opened ModelClient

  /** A value of a dynamic config entry, as far as `DynamicConfig.Get` can convert it. */
  datatype ConfigValue = Text(text: string) | Entries(entries: map<string, string>) | Unconvertible

  type Config = map<string, ConfigValue>

  /** `config.Get<string>(key, default)`: the entry when it is present as a string, else the default. */
  function GetText(config: Config, key: string, default: Option<string>): Option<string> {
    if key in config && config[key].Text? then Some(config[key].text) else default
  }

  /** `config.Get<Dictionary<string, string>>(key, default)`. */
  function GetEntries(config: Config, key: string, default: map<string, string>): map<string, string> {
    if key in config && config[key].Entries? then config[key].entries else default
  }

  predicate IsNullOrEmpty(s: Option<string>) {
    s.None? || s.value == ""
  }

  const MissingConnection: string := "Endpoint and API key are not specified in the config"

  /** `GetModelClientFromEndpoint`: no config lookup and no defaults; only the
      constructor's own rejection of an empty key applies. */
  function GetModelClientFromEndpoint(endpoint: string, apiKey: string): (r: Result<Client, Error>)
    ensures r.Failure? <==> apiKey == ""
    ensures r.Failure? ==> r.error == EmptyArgument("key")
    ensures r.Success? ==> r.value.endpoint == endpoint && r.value.apiKey == apiKey && r.value.defaults.None?
    ensures r.Success? ==> Valid(r.value) && r.value.completionsClient.None? && r.value.embeddingsClient.None?
  {
    NewClient(endpoint, apiKey, None)
  }

  /** `GetModelClient`: the config's `endpoint`, `key` and `completion_defaults`
      win over the supplied defaults (an empty map for the last); the call fails
      when the endpoint or the key ends up null or empty. */
  function GetModelClient(fetch: (User, string) -> Config, dynamicConfigId: string,
                          defaultEndpoint: Option<string>, defaultApiKey: Option<string>)
    : (r: Result<Client, Error>)
    ensures var config := fetch(Attributed(None), dynamicConfigId);
      var endpoint := if "endpoint" in config && config["endpoint"].Text? then Some(config["endpoint"].text)
                      else defaultEndpoint;
      var key := if "key" in config && config["key"].Text? then Some(config["key"].text) else defaultApiKey;
      && (r.Failure? <==> endpoint.None? || endpoint.value == "" || key.None? || key.value == "")
      && (r.Failure? ==> r.error == InvalidOperation(MissingConnection))
      && (r.Success? ==>
            && r.value.endpoint == endpoint.value
            && r.value.apiKey == key.value
            && r.value.defaults ==
                 Some(if "completion_defaults" in config && config["completion_defaults"].Entries?
                      then config["completion_defaults"].entries else map[])
            && Valid(r.value) && r.value.completionsClient.None? && r.value.embeddingsClient.None?)
  {
    var config := fetch(Attributed(None), dynamicConfigId);
    var endpoint := GetText(config, "endpoint", defaultEndpoint);
    var apiKey := GetText(config, "key", defaultApiKey);
    var defaults := GetEntries(config, "completion_defaults", map[]);
    if IsNullOrEmpty(endpoint) || IsNullOrEmpty(apiKey) then
      Failure(InvalidOperation(MissingConnection))
    else
      NewClient(endpoint.value, apiKey.value, Some(defaults))
  }

  /** A config without a `key` string and no default key: the call fails. */
  lemma MissingKeyFails(fetch: (User, string) -> Config, dynamicConfigId: string, defaultEndpoint: Option<string>)
    requires "key" !in fetch(Attributed(None), dynamicConfigId)
    ensures GetModelClient(fetch, dynamicConfigId, defaultEndpoint, None) == Failure(InvalidOperation(MissingConnection))
  {
  }

  /** A client from an endpoint and a client from a config without
      `completion_defaults` send the same, entirely unset, options. */
  lemma NoDefaultsEitherWay(fetch: (User, string) -> Config, dynamicConfigId: string,
                            defaultEndpoint: Option<string>, defaultApiKey: Option<string>,
                            endpoint: string, apiKey: string, parseFloat: string -> Option<real>)
    requires "completion_defaults" !in fetch(Attributed(None), dynamicConfigId)
    requires GetModelClient(fetch, dynamicConfigId, defaultEndpoint, defaultApiKey).Success?
    ensures GetModelClientFromEndpoint(endpoint, apiKey).Success? ==>
              DefaultOptions(GetModelClientFromEndpoint(endpoint, apiKey).value.defaults, parseFloat) == Unset
    ensures DefaultOptions(GetModelClient(fetch, dynamicConfigId, defaultEndpoint, defaultApiKey).value.defaults,
                           parseFloat) == Unset
  {
    NoDefaultsNoOptions(parseFloat);
    var c := GetModelClient(fetch, dynamicConfigId, defaultEndpoint, defaultApiKey).value;
    forall f ensures Get(DefaultOptions(c.defaults, parseFloat), f) == Get(Unset, f) {
      DefaultOptionsField(c.defaults, parseFloat, f);
    }
    FieldsDetermineOptions(DefaultOptions(c.defaults, parseFloat), Unset);
  }
}
