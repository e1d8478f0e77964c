// Choosing a provider by name (internals/ai/factory.go), and how the two
// modelled providers differ on the same response.

module Factory {
  import opened Results
  import opened AiProvider
  import opened AiUtils
  import HF = HuggingFace
  import DS = DeepSeek

  /**
   * The provider `NewProvider` returns. The OpenAI and Gemini SDK clients are
   * not part of this model; only the key they are built from is kept.
   */
  datatype Provider =
    | OpenAI(apiKey: string)
    | Gemini(apiKey: string)
    | DeepSeek(deepSeek: DS.DeepSeekProvider)
    | HuggingFace(huggingFace: HF.HuggingFaceProvider)

  const UnknownProviderPrefix := "unknown AI provider: "

  /** The environment variables `NewOpenAIProvider` and `NewGeminiProvider` consult when no key is given. */
  const OpenAIKeyVariable := "OPENAI_API_KEY"
  const GeminiKeyVariable := "GEMINI_API_KEY"

  /** The key an SDK client is built from: the given key, or the variable when none is given. */
  function KeyOrEnv(apiKey: string, env: Environment, variable: string): (key: string)
    ensures apiKey != "" ==> key == apiKey
    ensures apiKey == "" ==> key == Getenv(env, variable)
  {
    if apiKey == "" then Getenv(env, variable) else apiKey
  }

  /** The names `NewProvider` accepts, matched exactly. */
  predicate IsProviderName(name: string) {
    name in {"openai", "gemini", "deepseek", "huggingface", "default", ""}
  }

  /** `NewProvider`: dispatch on the exact name; the Hugging Face client is the default. */
  function NewProvider(name: string, apiKey: string, env: Environment): (r: Result<Provider, string>)
    ensures r.Ok? <==> IsProviderName(name)
    ensures r.Err? ==> r.error == UnknownProviderPrefix + name
    ensures name == "openai" ==> r == Ok(OpenAI(KeyOrEnv(apiKey, env, OpenAIKeyVariable)))
    ensures name == "gemini" ==> r == Ok(Gemini(KeyOrEnv(apiKey, env, GeminiKeyVariable)))
    ensures name == "deepseek" ==> r == Ok(DeepSeek(DS.NewDeepSeekProvider(apiKey, env)))
    ensures name in {"huggingface", "default", ""} ==> r == Ok(HuggingFace(HF.NewHuggingFaceProvider(apiKey)))
  {
    if name == "openai" then Ok(OpenAI(KeyOrEnv(apiKey, env, OpenAIKeyVariable)))
    else if name == "gemini" then Ok(Gemini(KeyOrEnv(apiKey, env, GeminiKeyVariable)))
    else if name == "deepseek" then Ok(DeepSeek(DS.NewDeepSeekProvider(apiKey, env)))
    else if name == "huggingface" || name == "default" || name == "" then
      Ok(HuggingFace(HF.NewHuggingFaceProvider(apiKey)))
    else Err(UnknownProviderPrefix + name)
  }

  // ------------------------------------------------------------- properties

  /** "huggingface", "default" and the empty name all give the same Hugging Face client, with the key unchanged. */
  lemma DefaultIsHuggingFace(apiKey: string, env: Environment)
    ensures NewProvider("", apiKey, env) == NewProvider("default", apiKey, env)
      == NewProvider("huggingface", apiKey, env)
      == Ok(HuggingFace(HF.HuggingFaceProvider(apiKey, HF.DefaultModel)))
  {
  }

  /** Names are matched with their case: a capitalised name is unknown. */
  lemma NamesAreCaseSensitive(apiKey: string, env: Environment)
    ensures NewProvider("OpenAI", apiKey, env) == Err("unknown AI provider: OpenAI")
    ensures NewProvider("HuggingFace", apiKey, env).Err?
  {
    assert UnknownProviderPrefix + "OpenAI" == "unknown AI provider: OpenAI";
  }

  /**
   * With an empty key, the OpenAI, Gemini and DeepSeek clients read their
   * own environment variable; only the Hugging Face client keeps the empty key.
   */
  lemma EmptyKeyHandling(env: Environment)
    ensures NewProvider("openai", "", env) == Ok(OpenAI(Getenv(env, OpenAIKeyVariable)))
    ensures NewProvider("gemini", "", env) == Ok(Gemini(Getenv(env, GeminiKeyVariable)))
    ensures NewProvider("deepseek", "", env) == Ok(DeepSeek(DS.DeepSeekProvider(Getenv(env, DS.KeyVariable))))
    ensures NewProvider("huggingface", "", env).value.huggingFace.apiKey == ""
  {
  }

  /** A key that is given is used by every client, whatever the environment holds. */
  lemma GivenKeyIgnoresEnvironment(name: string, apiKey: string, env: Environment, other: Environment)
    requires apiKey != ""
    ensures NewProvider(name, apiKey, env) == NewProvider(name, apiKey, other)
  {
  }

  /** Whatever the Hugging Face client accepts, the DeepSeek client accepts with the same posts. */
  lemma HuggingFaceOkDeepSeekOk(resp: Response)
    requires HF.Outcome(resp).Ok?
    ensures DS.Outcome(resp) == HF.Outcome(resp)
  {
    HF.OutcomeOk(resp);
    DS.OutcomeOk(resp);
  }

  /** The JSON body of a response whose one choice says `LinkedIn: hi`. */
  const ServerErrorBody := "{\"choices\":[{\"message\":{\"content\":\"LinkedIn: hi\"}}]}"

  /** A server error with a decodable choice: the Hugging Face client fails, the DeepSeek client parses it. */
  lemma ServerErrorContrast()
    ensures var body := ServerErrorBody;
      var resp := Response(500, body, None, ["LinkedIn: hi"]);
      && HF.Outcome(resp) == Err("huggingface error: " + body)
      && DS.Outcome(resp) == Ok(Parsed("LinkedIn: hi"))
  {
  }
}
