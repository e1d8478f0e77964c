// The provider-independent part of the AI client: the posts a provider
// returns, and the shape of one chat-completion exchange with a remote
// model as the providers see it.

module AiProvider {
  import opened Results

  /** The posts generated for one batch of commits. */
  datatype GeneratedPosts = GeneratedPosts(linkedIn: string, twitter: string)

  /** One entry of the chat request's `messages` array. */
  datatype Message = Message(role: string, content: string)

  /**
   * An HTTP POST carrying an OpenAI-style chat-completion body:
   * `stream` is `None` when the body has no "stream" key.
   */
  datatype ChatRequest = ChatRequest(
    url: string,
    model: string,
    messages: seq<Message>,
    stream: Option<bool>,
    headers: map<string, string>)

  /**
   * What the transport hands back for one request: either the client's
   * error, or the status code, the raw body, the outcome of decoding the
   * body as a chat completion, and the `choices[k].message.content`
   * strings the decoder produced (possibly only some of them when the
   * decoding stopped with an error).
   */
  datatype Response =
    | TransportFailure(cause: string)
    | Response(status: int, body: string, decodeError: Option<string>, contents: seq<string>)

  /** The process environment. */
  type Environment = map<string, string>

  /** `os.Getenv`: the empty string for a variable that is not set. */
  function Getenv(env: Environment, name: string): (value: string)
    ensures name in env ==> value == env[name]
    ensures name !in env ==> value == ""
  {
    if name in env then env[name] else ""
  }
}
