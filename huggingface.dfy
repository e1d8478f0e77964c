// The Hugging Face router client (internals/ai/provider_huggingface.go).

module HuggingFace {
  import opened Results
  import opened AiProvider
  import opened AiUtils

  const Endpoint := "https://router.huggingface.co/v1/chat/completions"

  /** The chat model a new provider uses. */
  const DefaultModel := "openai/gpt-oss-20b:groq"

  const RequestFailedPrefix := "huggingface request failed: "
  const StatusErrorPrefix := "huggingface error: "
  const DecodeErrorPrefix := "failed to parse huggingface response: "
  const NoContentError := "no response content returned from model"

  datatype HuggingFaceProvider = HuggingFaceProvider(apiKey: string, model: string)

  /** `NewHuggingFaceProvider`: the key as given, even when empty, and the default model. */
  function NewHuggingFaceProvider(apiKey: string): (p: HuggingFaceProvider)
    ensures p.apiKey == apiKey && p.model == DefaultModel
  {
    HuggingFaceProvider(apiKey, DefaultModel)
  }

  /** The headers: always the JSON content type, a bearer token only for a non-empty key. */
  function Headers(apiKey: string): (headers: map<string, string>)
    ensures "Content-Type" in headers && headers["Content-Type"] == "application/json"
    ensures "Authorization" in headers <==> apiKey != ""
    ensures "Authorization" in headers ==> headers["Authorization"] == "Bearer " + apiKey
    ensures headers.Keys <= {"Content-Type", "Authorization"}
  {
    var base := map["Content-Type" := "application/json"];
    if apiKey != "" then base["Authorization" := "Bearer " + apiKey] else base
  }

  /** The request `GeneratePosts` sends for a prompt. */
  function Request(p: HuggingFaceProvider, prompt: string): ChatRequest {
    ChatRequest(Endpoint, p.model, [Message("user", prompt)], Some(false), Headers(p.apiKey))
  }

  /** How a response is turned into posts or an error, checked in the order the client does. */
  function Outcome(resp: Response): (r: Result<GeneratedPosts, string>) {
    match resp
    case TransportFailure(cause) => Err(RequestFailedPrefix + cause)
    case Response(status, body, decodeError, contents) =>
      if status != 200 then Err(StatusErrorPrefix + body)
      else if decodeError.Some? then Err(DecodeErrorPrefix + decodeError.value)
      else if |contents| == 0 || contents[0] == "" then Err(NoContentError)
      else Ok(Parsed(contents[0]))
  }

  /**
   * `GeneratePosts`: builds the request step by step, hands it to the
   * transport and returns at the first failed check.
   */
  method GeneratePosts(p: HuggingFaceProvider, prompt: string, transport: ChatRequest -> Response)
    returns (r: Result<GeneratedPosts, string>)
    ensures r == Outcome(transport(Request(p, prompt)))
  {
    var headers := map["Content-Type" := "application/json"];
    if p.apiKey != "" {
      headers := headers["Authorization" := "Bearer " + p.apiKey];
    }
    var req := ChatRequest(Endpoint, p.model, [Message("user", prompt)], Some(false), headers);
    var resp := transport(req);
    if resp.TransportFailure? {
      return Err(RequestFailedPrefix + resp.cause);
    }
    if resp.status != 200 {
      return Err(StatusErrorPrefix + resp.body);
    }
    if resp.decodeError.Some? {
      return Err(DecodeErrorPrefix + resp.decodeError.value);
    }
    if |resp.contents| == 0 || resp.contents[0] == "" {
      return Err(NoContentError);
    }
    var posts := ParseResponse(resp.contents[0]);
    return Ok(posts);
  }

  // ------------------------------------------------------------- properties

  /** The request carries the model, exactly one user message holding the prompt, and `stream: false`. */
  lemma RequestEnvelope(p: HuggingFaceProvider, prompt: string)
    ensures var req := Request(p, prompt);
      && req.url == Endpoint
      && req.model == p.model
      && |req.messages| == 1
      && req.messages[0] == Message("user", prompt)
      && req.stream == Some(false)
      && ("Authorization" in req.headers <==> p.apiKey != "")
  {
  }

  /** Posts come back exactly for a 200 response that decodes and has a non-empty first choice. */
  lemma OutcomeOk(resp: Response)
    ensures Outcome(resp).Ok? <==>
      resp.Response? && resp.status == 200 && resp.decodeError.None?
      && |resp.contents| > 0 && resp.contents[0] != ""
    ensures Outcome(resp).Ok? ==> Outcome(resp).value == Parsed(resp.contents[0])
  {
  }

  /** A transport failure and any status other than 200 are errors, whatever else the response holds. */
  lemma OutcomeFailures(resp: Response)
    ensures resp.TransportFailure? ==> Outcome(resp) == Err(RequestFailedPrefix + resp.cause)
    ensures resp.Response? && resp.status != 200 ==> Outcome(resp) == Err(StatusErrorPrefix + resp.body)
  {
  }

  /** Choices after the first never change the outcome. */
  lemma OutcomeFirstChoiceOnly(resp: Response, more: seq<string>)
    requires resp.Response? && |resp.contents| > 0
    ensures Outcome(resp.(contents := resp.contents + more)) == Outcome(resp)
  {
    assert (resp.contents + more)[0] == resp.contents[0];
  }

  /** Successful posts are never empty. */
  lemma {:induction false} OutcomePostsNonEmpty(resp: Response)
    requires Outcome(resp).Ok?
    ensures Outcome(resp).value.linkedIn != "" && Outcome(resp).value.twitter != ""
  {
    ParsedNonEmpty(resp.contents[0]);
  }
}
