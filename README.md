# commit-feed core, modelled in Dafny

commit-feed turns Git commit messages into social-media posts. It reads the
commits with `git log`, builds one instruction text (the *prompt*) for a
language model, then sends it to a provider (Hugging Face's router,
DeepSeek, OpenAI or Gemini). Finally it reads the model's reply back into a
LinkedIn post and a Twitter post.

This project models the text-processing core of that pipeline, and proves
what the code promises about it:

- `Strings` (`strings.dfy`): the parts of Go's `strings` and `fmt` packages
  the core relies on. These are `TrimSpace` over `unicode.IsSpace`, `Split`,
  `SplitN`, `HasPrefix`, `TrimPrefix`, ASCII `ToLower` and `%d`, with the
  facts about them the other modules need.
- `GitLog` (`git_log.dfy`, `internals/git/log_reader.go`):
  - the `git log` argument list;
  - the loop that parses its `%h|%an|%ad|%s` output into commits;
  - the loop that extracts a project description from the README
    candidates.

  Running `git`, the file system and `time.Parse` are inputs.
- `AiProvider` (`ai_provider.dfy`): the `GeneratedPosts` record
  (`internals/ai/provider.go`), plus the shape of one chat-completion
  exchange as the hand-written providers see it. That shape is a request
  envelope, and a decoded response that is either a transport failure or a
  status, a body, a decoding outcome and the choices' contents.
- `AiUtils` (`ai_utils.dfy`, `internals/ai/utils.go`):
  - `buildPrompt` as a method that writes the prompt piece by piece, proved
    equal to a prompt text function;
  - `parseResponse` as a loop over the reply's lines, proved equal to a
    left fold with the raw-text fallback.
- `HuggingFace` and `DeepSeek` (`huggingface.dfy`, `deepseek.dfy`): each
  provider's constructor, the request it sends, and its `GeneratePosts`
  method. The transport is a function parameter. The method is proved equal
  to a pure classification of the response.
- `Factory` (`factory.dfy`, `internals/ai/factory.go`): `NewProvider`'s
  exact-match dispatch. It also holds lemmas contrasting how the two
  modelled providers treat the same response.

The providers do not agree with `buildPrompt` on its arguments, and the model
follows `buildPrompt` itself:

- The `Provider` interface (`internals/ai/provider.go:11`) and the OpenAI client
  (`internals/ai/provider_openai.go:25-26`) pass a project context as well. The
  code's `buildPrompt` (`internals/ai/utils.go:11-62`) takes only the commits and
  the platforms, so the prompt built here has no context section.
- `buildPrompt` has no default platforms. The caller picks them from the
  configuration or the command-line flags (`cmd/generate.go:66-69`), so an
  empty list gives no guideline lines.
- The Hugging Face and DeepSeek clients call `buildPrompt(commits)` with one
  argument. They take the prompt as an input here; `AiUtils.BuildPrompt` is
  the prompt builder.

The prompt lemmas are stated over a `PromptFrame`, the triple of fixed texts
around the commit and guideline sections. They hold for any frame, so they
also hold for `StandardFrame`, the texts `buildPrompt` writes.

## Model

| member | source | states |
|---|---|---|
| Strings.SplitNLength | internals/git/log_reader.go:64-65 | `SplitN(s, sep, n)` has min(n, separators + 1) pieces, so a line has four fields exactly when it holds three or more `\|`. |
| Strings.SplitJoin | internals/ai/utils.go:67 | Splitting lines joined by a separator they do not contain gives those lines back. |
| Strings.LinesPrefixSnoc | internals/ai/utils.go:22-24 | Writing one more line and a newline to a builder extends the text by exactly that line. |
| GitLog.IsGitRepoOutput | internals/git/log_reader.go:27-34 | A failed `rev-parse` means no repository. Its output counts only when it is `true` once white space is trimmed, so `true\n` is a repository and `false\n` is not. |
| GitLog.LogArgs | internals/git/log_reader.go:45-50 | The arguments are the three base arguments plus at most one more. The extra argument is the range when one is given, otherwise `-n…` when the limit is positive, otherwise nothing. |
| GitLog.LogArgsLimit | internals/git/log_reader.go:46-50 | A range wins over any limit. The `-n` argument is exactly `-n` and the limit in decimal, with no leading zeros, and it reads back as the limit. |
| GitLog.DateOf | internals/git/log_reader.go:68 | An unparsable date gives Go's zero time, not an error. |
| GitLog.ParseLine | internals/git/log_reader.go:64-74 | A line yields a commit exactly when it has at least three `\|`. |
| GitLog.GetCommits | internals/git/log_reader.go:37-78 | Missing `git`, a non-repository and a failed `git log` give the code's three errors. Otherwise the result is the parse of the trimmed output, line by line. |
| GitLog.ParseLinesAppend | internals/git/log_reader.go:63-75 | Parsing two line lists one after the other concatenates their commits, so commits keep line order. |
| GitLog.ParseLinesBound | internals/git/log_reader.go:60-75 | There are never more commits than lines. |
| GitLog.ParseLinesSingle | internals/git/log_reader.go:64-67 | A line with fewer than four fields is skipped, and any other line becomes its commit. |
| GitLog.SplitNFields | internals/git/log_reader.go:64 | Only the first three `\|` split a line; the fourth field is the whole rest. |
| GitLog.ParseLineFields | internals/git/log_reader.go:64-74 | A formatted line parses to its trimmed hash, author, date and message, and the message keeps any later `\|`. |
| GitLog.ParseLogSingleLine | internals/git/log_reader.go:60-75 | No parsed message contains a newline. |
| GitLog.Contribution | internals/git/log_reader.go:96-109 | A line adds nothing exactly when it is blank after trimming. |
| GitLog.CleanLineHeading | internals/git/log_reader.go:101-103 | One leading `#` is removed, and the re-trim drops any white space after it: `#` and white space before a trimmed text not starting with `>` give that text, so `# Title` gives `Title`. |
| GitLog.CleanLineQuote | internals/git/log_reader.go:104-106 | A leading `>` and any white space after it are removed. |
| GitLog.CleanLineDoubleHash | internals/git/log_reader.go:101-106 | `## Usage` becomes `# Usage`: only one `#` is removed. |
| GitLog.StripMarkup | internals/git/log_reader.go:101-106 | The two conditional removals, done in place, give the cleaned line. |
| GitLog.AppendLine | internals/git/log_reader.go:96-109 | One loop step reports a blank line and writes nothing for it. Otherwise it writes the cleaned line and one space. |
| GitLog.GatherLines | internals/git/log_reader.go:92-115 | The loop with `continue` and `break` computes the gathering function over the lines' contributions. |
| GitLog.GatherPrefix | internals/git/log_reader.go:95-115 | The gathered text is a prefix of all the contributions written in order. |
| GitLog.GatherWithinLimit | internals/git/log_reader.go:112-114 | While the text fits in 200 characters, every line is gathered. |
| GitLog.GatherCutPastLimit | internals/git/log_reader.go:112-114 | Whenever some text is cut off, the gathered part is longer than 200. `GatherExact` states where a cut falls, and `GatherNoStop` that without a qualifying line nothing is cut. |
| GitLog.GatherStops | internals/git/log_reader.go:112-114 | Once a non-blank line at index 3 or later takes the text past 200 characters, nothing after that line is gathered: the result is a prefix of the text up to and including that line. |
| GitLog.GatherExact | internals/git/log_reader.go:112-114 | When line `j` is the first non-blank line at index 3 or later that takes the text past 200 characters, the result is exactly `acc` followed by every contribution up to and including line `j`: gathering neither stops earlier nor goes on. |
| GitLog.GatherNoStop | internals/git/log_reader.go:112-114 | When no non-blank line at index 3 or later takes the text past 200 characters, everything is gathered, however long the text is. With `GatherExact` this fixes the result for every README. |
| GitLog.GatherShort | internals/git/log_reader.go:112-114 | A README of at most four lines, blank lines included, is gathered whole, however long it is. |
| GitLog.ExtractDescription | internals/git/log_reader.go:92-117 | One README's description is the gathered text, trimmed. |
| GitLog.GetProjectDescription | internals/git/log_reader.go:81-124 | The result is the first non-empty description among the README candidates in their fixed order. |
| GitLog.FirstNonEmptyEmpty | internals/git/log_reader.go:84-124 | The result is `""` exactly when no candidate yields text. |
| GitLog.FirstNonEmptyFirst | internals/git/log_reader.go:84-121 | A non-empty result is some candidate's description, and every earlier candidate yielded nothing. |
| AiProvider.Getenv | internals/ai/provider_deepseek.go:19 | A variable that is not set reads as `""`. |
| AiUtils.Guideline | internals/ai/utils.go:45-46 | An unknown platform gets the fallback line with its name as given. |
| AiUtils.WriteCommitLines | internals/ai/utils.go:22-24 | The commit loop writes the commit section: one `- message` line per commit. |
| AiUtils.WriteGuidelines | internals/ai/utils.go:28-48 | The platform loop writes the guideline section: one guideline line per platform. |
| AiUtils.BuildPrompt | internals/ai/utils.go:11-62 | The builder's text is the prompt with the preamble, commit lines, heading, guideline lines and format trailer, in that order. |
| AiUtils.GuidelineSingleLine | internals/ai/utils.go:29-46 | No guideline breaks a line unless the platform name does. |
| AiUtils.CommitSectionLines | internals/ai/utils.go:22-24 | The commit section splits into exactly one `- message` line per commit, in order. |
| AiUtils.GuidelineSectionLines | internals/ai/utils.go:28-48 | The guideline section splits into exactly one line per platform, in order, with repetitions kept. |
| AiUtils.PromptLayout | internals/ai/utils.go:14-61 | For any commits and platforms, the prompt is the preamble, the commit section, the guidelines heading, the guideline section and the format trailer, each at its place. |
| AiUtils.PromptCommitLines | internals/ai/utils.go:14-26 | The prompt starts with the preamble. The commit section follows, and then the guidelines heading. |
| AiUtils.PromptGuidelineLines | internals/ai/utils.go:26-59 | The guideline section follows the heading, and the prompt ends with the constant format trailer. |
| AiUtils.PromptNoCommits | internals/ai/utils.go:14-26 | With no commits, the heading follows the preamble directly. |
| AiUtils.PromptMessagesOnly | internals/ai/utils.go:22-24 | Commits with the same messages give the same prompt: hashes, authors and dates never appear. |
| AiUtils.GuidelineSectionAppend | internals/ai/utils.go:28-48 | The section for two platform lists is the two sections one after the other. |
| AiUtils.TwitterAliases | internals/ai/utils.go:29-35 | `x`, `twitter` and `Twitter` give the same Twitter/X line. |
| AiUtils.DevToAliases | internals/ai/utils.go:39-41 | `dev.to`, `devto` and `DevTo` give the same Dev.to line. |
| AiUtils.LinkedInAnyCase | internals/ai/utils.go:29-32 | The LinkedIn line is found, for example, for `LinkedIn` and `LINKEDIN`; `GuidelineCaseInsensitive` gives every capitalisation. |
| AiUtils.GuidelineCaseInsensitive | internals/ai/utils.go:29-44 | For a known platform, the line depends only on the lower-cased name. |
| AiUtils.GuidelineUnknownVerbatim | internals/ai/utils.go:45-46 | An unknown name keeps its original case, so `Bluesky` and `bluesky` give different lines. |
| AiUtils.GuidelineSectionExample | internals/ai/utils.go:36-46 | `["mastodon", "bluesky"]` gives the Mastodon line and then the fallback line for `bluesky`. |
| AiUtils.ParseResponse | internals/ai/utils.go:65-82 | The loop over the reply's lines, followed by the two fallbacks, computes the parsed posts. |
| AiUtils.LinkedInNotTwitter | internals/ai/utils.go:69-73 | No line is both a LinkedIn line and a Twitter line, so a LinkedIn line never sets the Twitter post. |
| AiUtils.ScanLinkedInLast | internals/ai/utils.go:68-74 | The LinkedIn field holds the value of the last LinkedIn line. |
| AiUtils.ScanLinkedInAbsent | internals/ai/utils.go:68-74 | Without a LinkedIn line, the LinkedIn field stays empty. |
| AiUtils.ScanTwitterLast | internals/ai/utils.go:68-74 | The Twitter field holds the value of the last Twitter line. |
| AiUtils.ScanTwitterAbsent | internals/ai/utils.go:68-74 | Without a Twitter line, the Twitter field stays empty. |
| AiUtils.ParsedLinkedInLast | internals/ai/utils.go:67-77 | The LinkedIn post is the last LinkedIn line's value, or the whole reply when that value is empty. |
| AiUtils.ParsedLinkedInAbsent | internals/ai/utils.go:75-77 | Without a LinkedIn line, the LinkedIn post is the whole reply. |
| AiUtils.ParsedTwitterLast | internals/ai/utils.go:67-80 | The Twitter post is the last Twitter line's value, or the whole reply when that value is empty. |
| AiUtils.ParsedTwitterAbsent | internals/ai/utils.go:78-80 | Without a Twitter line, the Twitter post is the whole reply. |
| AiUtils.ParsedNonEmpty | internals/ai/utils.go:75-80 | A non-empty reply never gives an empty post. The empty reply gives two empty posts. |
| AiUtils.LabelledLines | internals/ai/utils.go:69-72 | The exact labels `LinkedIn:` and `Twitter:` are recognised and stripped, and the value is trimmed. |
| AiUtils.ParsedTwoLines | internals/ai/utils.go:67-80 | A LinkedIn line followed by a Twitter line gives both values, each falling back to the reply when empty. |
| AiUtils.LowercaseLabelValue | internals/ai/utils.go:69-70 | `linkedin:` in lower case is recognised, but its value keeps the label. |
| AiUtils.ParsedLowercaseLabel | internals/ai/utils.go:69-70 | A one-line reply `linkedin:…` gives a LinkedIn post that still starts with `linkedin:`. |
| HuggingFace.NewHuggingFaceProvider | internals/ai/provider_huggingface.go:20-25 | The key is stored as given, even when empty, and the model is `openai/gpt-oss-20b:groq`. |
| HuggingFace.Headers | internals/ai/provider_huggingface.go:50-53 | The content type is always set. `Authorization: Bearer <key>` is set exactly when the key is non-empty, and no other header is set. |
| HuggingFace.RequestEnvelope | internals/ai/provider_huggingface.go:32-53 | The request holds the endpoint, the provider's model, one `user` message with the prompt, and `stream: false`. |
| HuggingFace.GeneratePosts | internals/ai/provider_huggingface.go:28-89 | The early-return method gives the classification of whatever the transport answers to the request. |
| HuggingFace.OutcomeOk | internals/ai/provider_huggingface.go:63-88 | Posts come back exactly for a 200 response that decodes and has a non-empty first choice. They are then the parse of that choice. |
| HuggingFace.OutcomeFailures | internals/ai/provider_huggingface.go:55-65 | A transport failure, and any status but 200, give their errors; the latter carries the body. |
| HuggingFace.OutcomeFirstChoiceOnly | internals/ai/provider_huggingface.go:80-88 | Choices after the first never change the outcome. |
| HuggingFace.OutcomePostsNonEmpty | internals/ai/provider_huggingface.go:80-88 | Posts that come back are never empty. |
| DeepSeek.NewDeepSeekProvider | internals/ai/provider_deepseek.go:17-22 | A non-empty key is kept, and an empty one is replaced by `DEEPSEEK_API_KEY`. |
| DeepSeek.KeyFallback | internals/ai/provider_deepseek.go:17-22 | A given key makes the environment irrelevant. With no key and no variable, the key is `""`. |
| DeepSeek.Headers | internals/ai/provider_deepseek.go:35-36 | Exactly two headers: `Authorization: Bearer <key>`, even for an empty key, and the JSON content type. |
| DeepSeek.RequestEnvelope | internals/ai/provider_deepseek.go:25-36 | The request holds `deepseek-chat`, the system message before the user prompt, no `stream` key, and exactly the two headers, with `Bearer <key>` even for an empty key. |
| DeepSeek.GeneratePosts | internals/ai/provider_deepseek.go:24-58 | The method gives the classification of whatever the transport answers to the request. |
| DeepSeek.OutcomeOk | internals/ai/provider_deepseek.go:38-57 | Posts come back exactly when the transport answered and at least one choice was decoded. They are the parse of the first choice. |
| DeepSeek.OutcomeIgnoresStatus | internals/ai/provider_deepseek.go:44-57 | The status code, the body and decoding errors never change the outcome. |
| DeepSeek.OutcomeEmptyContent | internals/ai/provider_deepseek.go:53-57 | An empty first choice is accepted and gives two empty posts. |
| Factory.NewProvider | internals/ai/factory.go:8-21 | Each accepted name gives its own client built from the key: OpenAI and Gemini through their environment fallback, DeepSeek through `NewDeepSeekProvider`, and `huggingface`, `default` and `""` the Hugging Face client. A provider comes back exactly for those six names, and any other name gives `unknown AI provider: <name>`. |
| Factory.DefaultIsHuggingFace | internals/ai/factory.go:16-17 | `""`, `default` and `huggingface` all give the Hugging Face client with the key unchanged. |
| Factory.NamesAreCaseSensitive | internals/ai/factory.go:9-19 | `OpenAI` and `HuggingFace` are unknown names. |
| Factory.KeyOrEnv | internals/ai/provider_openai.go:17-19 | The OpenAI and Gemini clients use a given key, and an empty key is replaced by their environment variable (`provider_gemini.go:17-19` for Gemini). |
| Factory.EmptyKeyHandling | internals/ai/factory.go:10-17 | With an empty key, the OpenAI, Gemini and DeepSeek clients read `OPENAI_API_KEY`, `GEMINI_API_KEY` and `DEEPSEEK_API_KEY`. Only the Hugging Face client keeps the empty key. |
| Factory.GivenKeyIgnoresEnvironment | internals/ai/factory.go:8-21 | A non-empty key makes every provider independent of the environment. |
| Factory.HuggingFaceOkDeepSeekOk | internals/ai/provider_deepseek.go:53-57 | Every response the Hugging Face client accepts, the DeepSeek client accepts with the same posts. |
| Factory.ServerErrorContrast | internals/ai/provider_huggingface.go:63-65 | A 500 response whose JSON body holds one `LinkedIn: hi` choice is an error carrying that body for Hugging Face, and posts for DeepSeek. |

## Left out

- The OpenAI and Gemini clients (`provider_openai.go`, `provider_gemini.go`) wrap SDK clients that are not part of this model. `Factory.Provider` keeps only the key they are built from, after the environment fallback of their constructors. Their `GeneratePosts` is left out.
- HTTP, JSON encoding and decoding, `exec.Command`, `os.Stat`, `os.ReadFile` and `os.Getenv` are not modelled as I/O:
  - the providers' transport is a function from the request envelope to the decoded response;
  - `git` is a `GitHost` value holding its answers;
  - the README files are a map from name to text, and an unreadable file is simply absent from it;
  - the environment is a map.
- `time.Parse` is a function parameter, and times are abstract values.
- The `http.NewRequest` error path (`provider_huggingface.go:45-48`) is left out: with a constant URL and method it cannot fail.
- The `GeneratePosts` signature of the `Provider` interface (`provider.go:11`) is left out, and so is the command-line wiring that calls it. Only the OpenAI client (`provider_openai.go:25`) has the interface's three arguments. The Hugging Face, DeepSeek and Gemini clients take the commits alone. The command (`cmd/generate.go:92`) passes two arguments, which matches none of them.
- The configuration files and the interactive setup are left out.
- AiUtils.IsKnownPlatform: lower-casing is ASCII only, whereas Go's `strings.ToLower` also folds non-ASCII letters (for example the Kelvin sign to `k`). The same holds for `IsLinkedInLine` and `IsTwitterLine`.
- GitLog.Gather: the 200 limit is compared with the number of characters, whereas Go's `len` counts UTF-8 bytes. The two agree on ASCII text.
- Strings are sequences of code points: invalid UTF-8 and byte-level details of the Go strings are not modelled.
