// The DeepSeek chat client (internals/ai/provider_deepseek.go).

module DeepSeek {
  import opened Results
  import opened AiProvider
  import opened AiUtils

  const Endpoint := "https://api.deepseek.com/v1/chat/completions"
  const Model := "deepseek-chat"
  const SystemPrompt := "You are CommitFeed, summarizing commits into social posts."

  /** The environment variable consulted when no key is given. */
  const KeyVariable := "DEEPSEEK_API_KEY"

  const RequestErrorPrefix := "deepseek request error: "
  const NoChoicesError := "no response from deepseek"

  datatype DeepSeekProvider = DeepSeekProvider(apiKey: string)

  /** `NewDeepSeekProvider`: an empty key is replaced by the environment's `DEEPSEEK_API_KEY`. */
  function NewDeepSeekProvider(apiKey: string, env: Environment): (p: DeepSeekProvider)
    ensures apiKey != "" ==> p.apiKey == apiKey
    ensures apiKey == "" ==> p.apiKey == Getenv(env, KeyVariable)
  {
    var key := if apiKey == "" then Getenv(env, KeyVariable) else apiKey;
    DeepSeekProvider(key)
  }

  /** The headers: a bearer token, even for an empty key, and the JSON content type. */
  function Headers(apiKey: string): (headers: map<string, string>)
    ensures headers.Keys == {"Authorization", "Content-Type"}
    ensures headers["Authorization"] == "Bearer " + apiKey
    ensures headers["Content-Type"] == "application/json"
  {
    map["Authorization" := "Bearer " + apiKey, "Content-Type" := "application/json"]
  }

  /** The request `GeneratePosts` sends: no "stream" key in the body. */
  function Request(p: DeepSeekProvider, prompt: string): ChatRequest {
    ChatRequest(Endpoint, Model, [Message("system", SystemPrompt), Message("user", prompt)], None,
      Headers(p.apiKey))
  }

  /** How a response is turned into posts or an error: only a transport failure and zero choices fail. */
  function Outcome(resp: Response): (r: Result<GeneratedPosts, string>) {
    match resp
    case TransportFailure(cause) => Err(RequestErrorPrefix + cause)
    case Response(_, _, _, contents) =>
      if |contents| == 0 then Err(NoChoicesError) else Ok(Parsed(contents[0]))
  }

  /**
   * `GeneratePosts`: sets the headers one by one, hands the request to the
   * transport and decodes whatever comes back, ignoring decode errors.
   */
  method GeneratePosts(p: DeepSeekProvider, prompt: string, transport: ChatRequest -> Response)
    returns (r: Result<GeneratedPosts, string>)
    ensures r == Outcome(transport(Request(p, prompt)))
  {
    var messages := [Message("system", SystemPrompt), Message("user", prompt)];
    var headers: map<string, string> := map[];
    headers := headers["Authorization" := "Bearer " + p.apiKey];
    headers := headers["Content-Type" := "application/json"];
    assert headers == Headers(p.apiKey);
    var resp := transport(ChatRequest(Endpoint, Model, messages, None, headers));
    if resp.TransportFailure? {
      return Err(RequestErrorPrefix + resp.cause);
    }
    if |resp.contents| == 0 {
      return Err(NoChoicesError);
    }
    var posts := ParseResponse(resp.contents[0]);
    return Ok(posts);
  }

  // ------------------------------------------------------------- properties

  /** A key given to the constructor is kept; the environment is read only when none is given. */
  lemma KeyFallback(apiKey: string, env: Environment, other: Environment)
    ensures apiKey != "" ==> NewDeepSeekProvider(apiKey, env) == NewDeepSeekProvider(apiKey, other)
    ensures KeyVariable !in env ==> NewDeepSeekProvider("", env).apiKey == ""
  {
  }

  /** The request has the fixed model, the system message before the user prompt, and an unconditional bearer token. */
  lemma RequestEnvelope(p: DeepSeekProvider, prompt: string)
    ensures var req := Request(p, prompt);
      && req.url == Endpoint
      && req.model == Model
      && req.messages == [Message("system", SystemPrompt), Message("user", prompt)]
      && req.stream.None?
      && "Authorization" in req.headers && req.headers["Authorization"] == "Bearer " + p.apiKey
      && "Content-Type" in req.headers && req.headers["Content-Type"] == "application/json"
      && req.headers.Keys == {"Authorization", "Content-Type"}
  {
  }

  /** Posts come back exactly when the transport answered and at least one choice was decoded. */
  lemma OutcomeOk(resp: Response)
    ensures Outcome(resp).Ok? <==> resp.Response? && |resp.contents| > 0
    ensures Outcome(resp).Ok? ==> Outcome(resp).value == Parsed(resp.contents[0])
  {
  }

  /** The status code, the raw body and decode errors never change the outcome. */
  lemma OutcomeIgnoresStatus(resp: Response, status: int, body: string, decodeError: Option<string>)
    requires resp.Response?
    ensures Outcome(resp.(status := status, body := body, decodeError := decodeError)) == Outcome(resp)
  {
  }

  /** An empty first choice is not rejected: it yields two empty posts. */
  lemma OutcomeEmptyContent(resp: Response)
    requires resp.Response? && |resp.contents| > 0 && resp.contents[0] == ""
    ensures Outcome(resp) == Ok(GeneratedPosts("", ""))
  {
    ParsedNonEmpty("");
  }
}
