/**
  Request shaping of the Azure OpenAI chat client: the configuration read from
  the environment, the chat-completions URL, the JSON payload that `chat` and
  `stream_chat` post, and the choice between an API key and a bearer token.
  The environment is a map of variable names to values; the Key Vault lookup
  and the token provider are parameters.
*/
module ChatRequest {
  import opened Wrappers
  import opened Json
  import Text

  const DefaultApiVersion := "2024-12-01-preview"
  const DefaultApiKeySecretName := "AZURE-OPENAI-API-KEY"
  const MissingVarsMessage :=
    "Missing required Azure OpenAI env vars: AZURE_OPENAI_ENDPOINT, AZURE_OPENAI_DEPLOYMENT, AZURE_OPENAI_API_VERSION"

  /** The part of the configuration the client uses. */
  datatype Config = Config(endpoint: string, deployment: string, apiVersion: string, apiKey: Option<string>)

  /** `_get_env(name)`: the value with surrounding whitespace removed, or None when the variable is unset. */
  function GetEnv(env: map<string, string>, name: string): Option<string> {
    if name in env then Some(Text.Strip(env[name])) else None
  }

  /** `_get_env(name, default)`: an unset variable reads as `default`. */
  function GetEnvOr(env: map<string, string>, name: string, default: string): string {
    Text.Strip(if name in env then env[name] else default)
  }

  /** Python truthiness of an optional string. */
  predicate Present(v: Option<string>) {
    v.Some? && v.value != ""
  }

  /** Python `a or b` on optional strings. */
  function OrElse(a: Option<string>, b: Option<string>): (r: Option<string>)
    ensures Present(a) ==> r == a
    ensures !Present(a) ==> r == b
  {
    if Present(a) then a else b
  }

  function VaultUri(vaultName: string): string {
    "https://" + vaultName + ".vault.azure.net"
  }

  /** `KEY_VAULT_NAME or AZURE_KEY_VAULT_NAME or KEY_VAULT`: the first of the vault-name variables that is set and not blank. */
  function KeyVaultName(env: map<string, string>): Option<string> {
    OrElse(GetEnv(env, "KEY_VAULT_NAME"), OrElse(GetEnv(env, "AZURE_KEY_VAULT_NAME"), GetEnv(env, "KEY_VAULT")))
  }

  /**
    `load_azure_openai_config`. `vault(uri, secretName)` is the Key Vault secret
    lookup; None stands for a lookup that raised, which the loader swallows.
  */
  function LoadConfig(env: map<string, string>, vault: (string, string) -> Option<string>): (r: Result<Config, string>)
    ensures r.Failure? <==> !Present(GetEnv(env, "AZURE_OPENAI_ENDPOINT")) || !Present(GetEnv(env, "AZURE_OPENAI_DEPLOYMENT"))
    ensures r.Failure? ==> r.error == MissingVarsMessage
    ensures r.Success? ==> r.value.apiVersion != "" && r.value.deployment == GetEnv(env, "AZURE_OPENAI_DEPLOYMENT").value
    ensures r.Success? ==> r.value.apiVersion == OrElse(GetEnv(env, "AZURE_OPENAI_API_VERSION"), Some(DefaultApiVersion)).value
    ensures r.Success? && Present(GetEnv(env, "AZURE_OPENAI_API_KEY")) ==> r.value.apiKey == GetEnv(env, "AZURE_OPENAI_API_KEY")
    ensures r.Success? && !Present(GetEnv(env, "AZURE_OPENAI_API_KEY")) ==>
              var secret := if Present(KeyVaultName(env))
                then vault(VaultUri(KeyVaultName(env).value), GetEnvOr(env, "KEY_VAULT_AOAI_API_KEY_NAME", DefaultApiKeySecretName))
                else None;
              r.value.apiKey == (if secret.Some? then secret else GetEnv(env, "AZURE_OPENAI_API_KEY"))
  {
    var endpoint := GetEnv(env, "AZURE_OPENAI_ENDPOINT");
    var deployment := GetEnv(env, "AZURE_OPENAI_DEPLOYMENT");
    var apiVersion := OrElse(GetEnv(env, "AZURE_OPENAI_API_VERSION"), Some(DefaultApiVersion));
    var apiKey := GetEnv(env, "AZURE_OPENAI_API_KEY");
    var vaultName := KeyVaultName(env);
    var keyName := GetEnvOr(env, "KEY_VAULT_AOAI_API_KEY_NAME", DefaultApiKeySecretName);
    if !Present(endpoint) || !Present(deployment) || !Present(apiVersion) then
      Failure(MissingVarsMessage)
    else
      var key :=
        if !Present(apiKey) && Present(vaultName) then
          match vault(VaultUri(vaultName.value), keyName)
          case Some(v) => Some(v)
          case None => apiKey
        else apiKey;
      Success(Config(Text.RStripChar(endpoint.value, '/'), deployment.value, apiVersion.value, key))
  }

  /** The stored endpoint is the configured one without its trailing slashes. */
  lemma LoadConfigEndpoint(env: map<string, string>, vault: (string, string) -> Option<string>)
    requires LoadConfig(env, vault).Success?
    ensures var e := LoadConfig(env, vault).value.endpoint;
            e == Text.RStripChar(GetEnv(env, "AZURE_OPENAI_ENDPOINT").value, '/') && (e == [] || e[|e| - 1] != '/')
  {
  }

  /** The `base_url` property. */
  function BaseUrl(cfg: Config): string {
    cfg.endpoint + "/openai/deployments/" + cfg.deployment + "/chat/completions?api-version=" + cfg.apiVersion
  }

  /**
    With an endpoint stripped as the loader stores it, the URL begins with the
    endpoint and the endpoint contributes no slash of its own before the
    deployments path.
  */
  lemma BaseUrlJoin(cfg: Config, configured: string)
    requires cfg.endpoint == Text.RStripChar(configured, '/')
    ensures var u := BaseUrl(cfg); var n := |cfg.endpoint|;
            u[..n] == cfg.endpoint && u[n] == '/' && (n == 0 || u[n - 1] != '/')
  {
    var rest := "/openai/deployments/" + cfg.deployment + "/chat/completions?api-version=" + cfg.apiVersion;
    assert BaseUrl(cfg) == cfg.endpoint + rest;
  }

  /** Python truthiness of the optional `tools` list. */
  predicate HasTools(tools: Option<seq<Json>>) {
    tools.Some? && tools.value != []
  }

  /** A conditional `d[key] = v`. */
  function PutIf(p: seq<(string, Json)>, b: bool, key: string, v: Json): seq<(string, Json)> {
    if b then Put(p, key, v) else p
  }

  function BasePayload(messages: Json, temperature: Json): seq<(string, Json)> {
    [("messages", messages), ("temperature", temperature)]
  }

  function ToolsValue(tools: Option<seq<Json>>): Json {
    if tools.Some? then JArr(tools.value) else JNull
  }

  function ChoiceValue(toolChoice: Option<string>): Json {
    if toolChoice.Some? then JStr(toolChoice.value) else JNull
  }

  /**
    The request body: `messages` and `temperature`, then `tools` when the list
    is non-empty, `tool_choice` when given, and `stream: true` for `stream_chat`.
    Floating-point temperatures are carried as an opaque JSON value.
  */
  function Payload(messages: Json, temperature: Json, tools: Option<seq<Json>>, toolChoice: Option<string>, stream: bool): seq<(string, Json)> {
    var p1 := PutIf(BasePayload(messages, temperature), HasTools(tools), "tools", ToolsValue(tools));
    var p2 := PutIf(p1, toolChoice.Some?, "tool_choice", ChoiceValue(toolChoice));
    PutIf(p2, stream, "stream", JBool(true))
  }

  function Opt(b: bool, key: string): seq<string> {
    if b then [key] else []
  }

  lemma BaseKeys(messages: Json, temperature: Json)
    ensures Keys(BasePayload(messages, temperature)) == ["messages", "temperature"]
  {
    var p0 := BasePayload(messages, temperature);
    assert p0[1..][1..] == [];
  }

  lemma BaseLookup(messages: Json, temperature: Json, key: string)
    requires key != "messages" && key != "temperature"
    ensures Lookup(BasePayload(messages, temperature), key) == None
  {
    var p0 := BasePayload(messages, temperature);
    var p1 := [("temperature", temperature)];
    assert p0[0].0 != key && p0[1..] == p1;
    assert p1[0].0 != key && p1[1..] == [];
    assert Lookup(p1, key) == Lookup([], key);
  }

  /** A conditional `d[key] = v` for a key not yet present appends it to the keys. */
  lemma PutIfKeys(p: seq<(string, Json)>, k: seq<string>, b: bool, key: string, v: Json)
    requires Keys(p) == k && key !in k
    ensures Keys(PutIf(p, b, key, v)) == k + Opt(b, key)
  {
    if b {
      PutKeys(p, key, v);
    }
  }

  /** A conditional `d[key] = v` sets `key` when it fires and leaves every other key alone. */
  lemma PutIfLookup(p: seq<(string, Json)>, b: bool, key: string, v: Json, other: string)
    ensures Lookup(PutIf(p, b, key, v), other) == if b && other == key then Some(v) else Lookup(p, other)
  {
    if b && other == key {
      PutLookupSame(p, key, v);
    } else if b {
      PutLookupOther(p, key, v, other);
    }
  }

  /** The payload's keys, in insertion order. */
  lemma PayloadKeys(messages: Json, temperature: Json, tools: Option<seq<Json>>, toolChoice: Option<string>, stream: bool)
    ensures Keys(Payload(messages, temperature, tools, toolChoice, stream))
         == ["messages", "temperature"] + Opt(HasTools(tools), "tools") + Opt(toolChoice.Some?, "tool_choice") + Opt(stream, "stream")
  {
    var p0 := BasePayload(messages, temperature);
    var p1 := PutIf(p0, HasTools(tools), "tools", ToolsValue(tools));
    var p2 := PutIf(p1, toolChoice.Some?, "tool_choice", ChoiceValue(toolChoice));
    var k0 := ["messages", "temperature"];
    var k1 := k0 + Opt(HasTools(tools), "tools");
    var k2 := k1 + Opt(toolChoice.Some?, "tool_choice");
    BaseKeys(messages, temperature);
    PutIfKeys(p0, k0, HasTools(tools), "tools", ToolsValue(tools));
    PutIfKeys(p1, k1, toolChoice.Some?, "tool_choice", ChoiceValue(toolChoice));
    PutIfKeys(p2, k2, stream, "stream", JBool(true));
  }

  /** `tools` is sent exactly when the list is non-empty, and then it is the list. */
  lemma PayloadTools(messages: Json, temperature: Json, tools: Option<seq<Json>>, toolChoice: Option<string>, stream: bool)
    ensures Lookup(Payload(messages, temperature, tools, toolChoice, stream), "tools")
         == if HasTools(tools) then Some(JArr(tools.value)) else None
  {
    var p0 := BasePayload(messages, temperature);
    var p1 := PutIf(p0, HasTools(tools), "tools", ToolsValue(tools));
    var p2 := PutIf(p1, toolChoice.Some?, "tool_choice", ChoiceValue(toolChoice));
    BaseLookup(messages, temperature, "tools");
    PutIfLookup(p0, HasTools(tools), "tools", ToolsValue(tools), "tools");
    PutIfLookup(p1, toolChoice.Some?, "tool_choice", ChoiceValue(toolChoice), "tools");
    PutIfLookup(p2, stream, "stream", JBool(true), "tools");
  }

  /** `tool_choice` is sent exactly when it is given. */
  lemma PayloadToolChoice(messages: Json, temperature: Json, tools: Option<seq<Json>>, toolChoice: Option<string>, stream: bool)
    ensures Lookup(Payload(messages, temperature, tools, toolChoice, stream), "tool_choice")
         == if toolChoice.Some? then Some(JStr(toolChoice.value)) else None
  {
    var p0 := BasePayload(messages, temperature);
    var p1 := PutIf(p0, HasTools(tools), "tools", ToolsValue(tools));
    var p2 := PutIf(p1, toolChoice.Some?, "tool_choice", ChoiceValue(toolChoice));
    BaseLookup(messages, temperature, "tool_choice");
    PutIfLookup(p0, HasTools(tools), "tools", ToolsValue(tools), "tool_choice");
    PutIfLookup(p1, toolChoice.Some?, "tool_choice", ChoiceValue(toolChoice), "tool_choice");
    PutIfLookup(p2, stream, "stream", JBool(true), "tool_choice");
  }

  /** `stream_chat` sends `stream: true`; `chat` sends no `stream` key. */
  lemma PayloadStream(messages: Json, temperature: Json, tools: Option<seq<Json>>, toolChoice: Option<string>, stream: bool)
    ensures Lookup(Payload(messages, temperature, tools, toolChoice, stream), "stream")
         == if stream then Some(JBool(true)) else None
  {
    var p0 := BasePayload(messages, temperature);
    var p1 := PutIf(p0, HasTools(tools), "tools", ToolsValue(tools));
    var p2 := PutIf(p1, toolChoice.Some?, "tool_choice", ChoiceValue(toolChoice));
    BaseLookup(messages, temperature, "stream");
    PutIfLookup(p0, HasTools(tools), "tools", ToolsValue(tools), "stream");
    PutIfLookup(p1, toolChoice.Some?, "tool_choice", ChoiceValue(toolChoice), "stream");
    PutIfLookup(p2, stream, "stream", JBool(true), "stream");
  }

  /** The value of header `name`, if any. */
  function Header(headers: seq<(string, string)>, name: string): Option<string> {
    if headers == [] then None
    else if headers[0].0 == name then Some(headers[0].1)
    else Header(headers[1..], name)
  }

  /** `_get_headers`: the API key when it is set and non-empty, otherwise the bearer `token`. */
  function Headers(apiKey: Option<string>, token: string): seq<(string, string)> {
    if Present(apiKey) then [("api-key", apiKey.value), ("Content-Type", "application/json")]
    else [("Authorization", "Bearer " + token), ("Content-Type", "application/json")]
  }

  /** The headers of `stream_chat`: those of `_get_headers` plus the event-stream `Accept`. */
  function StreamHeaders(apiKey: Option<string>, token: string): seq<(string, string)> {
    Headers(apiKey, token) + [("Accept", "text/event-stream")]
  }

  lemma HeaderPair(x: (string, string), y: (string, string), name: string)
    ensures Header([x, y], name) == if x.0 == name then Some(x.1) else if y.0 == name then Some(y.1) else None
  {
    assert [x, y][1..] == [y] && [y][1..] == [];
    assert Header([y], name) == if y.0 == name then Some(y.1) else Header([], name);
  }

  lemma HeaderTriple(x: (string, string), y: (string, string), z: (string, string), name: string)
    ensures Header([x, y] + [z], name) == if x.0 == name then Some(x.1) else if y.0 == name then Some(y.1) else if z.0 == name then Some(z.1) else None
  {
    assert ([x, y] + [z])[1..] == [y, z];
    HeaderPair(y, z, name);
  }

  /** Exactly one of `api-key` and `Authorization` is sent, chosen by whether a key is set. */
  lemma HeadersAuth(apiKey: Option<string>, token: string, stream: bool, name: string)
    requires name in {"api-key", "Authorization", "Content-Type", "Accept"}
    ensures Header(if stream then StreamHeaders(apiKey, token) else Headers(apiKey, token), name)
         == if name == "api-key" then (if Present(apiKey) then Some(apiKey.value) else None)
            else if name == "Authorization" then (if Present(apiKey) then None else Some("Bearer " + token))
            else if name == "Content-Type" then Some("application/json")
            else if stream then Some("text/event-stream") else None
  {
    var h := Headers(apiKey, token);
    var a := ("Accept", "text/event-stream");
    if stream {
      HeaderTriple(h[0], h[1], a, name);
      assert StreamHeaders(apiKey, token) == [h[0], h[1]] + [a];
    } else {
      HeaderPair(h[0], h[1], name);
      assert h == [h[0], h[1]];
    }
  }
}
