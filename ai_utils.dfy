// The prompt sent to the model and the parser of its reply
// (internals/ai/utils.go).

module AiUtils {
  import opened Strings
  import opened GitLog
  import opened AiProvider

  // ---------------------------------------------------------------- prompt

  /** The fixed instructions that open every prompt, ending with the commit-section header. */
  const Preamble := "You are a skilled technical copywriter who creates engaging, platform-appropriate posts for developers and tech audiences.\n\nYour task is to generate short, high-quality social media posts based on the following Git commit messages.\nEach commit represents a meaningful code change, bug fix, or feature update.\n\n--- Commit Messages ---\n"

  /** The header between the commit lines and the platform guidelines. */
  const GuidelinesHeading := "\n--- Platform Guidelines ---\n"

  /** The closing format instructions. */
  const FormatTrailer := "\n\nFormat your response EXACTLY like this (one line per platform):\nLinkedIn: <LinkedIn post>\nTwitter: <Twitter post>\nMastodon: <Mastodon post>\n... etc.\n\nBe creative but accurate. Focus on clarity, developer value, and readability.\n"

  /** The bullet (U+2022) and space that start every guideline line. */
  const Bullet := "• "

  // The guideline texts are written in pieces so that the single-line
  // lemmas below can check them piece by piece.
  const LinkedInGuideline := Bullet + "LinkedIn: Write a friendly and "
    + "professional summary (2-4 sentences). "
    + "Explain what changed and why it matters "
    + "to developers or users."
  const TwitterGuideline := Bullet + "Twitter/X: Write a short, catchy "
    + "summary under 280 characters. Include "
    + "emojis or hashtags if natural."
  const MastodonGuideline := Bullet + "Mastodon: Write an open-source "
    + "community-style update with clear tone "
    + "and hashtags if relevant."
  /** Contains an em dash (U+2014). */
  const DevToGuideline := Bullet + "Dev.to: Write a short blog teaser — "
    + "2-3 sentences that introduce the update "
    + "and invite readers to learn more."
  const RedditGuideline := Bullet + "Reddit: Write a conversational "
    + "summary that would fit in a "
    + "/r/programming or /r/golang post, "
    + "no emojis."
  /** What follows the platform's own name on the line for a platform without a dedicated guideline. */
  const FallbackAdvice := ": Write a concise summary highlighting "
    + "the main purpose and value of the change."

  /** The lower-cased platform names that have a dedicated guideline. */
  predicate IsKnownPlatform(platform: string) {
    Lower(platform) in {"linkedin", "twitter", "x", "mastodon", "devto", "dev.to", "reddit"}
  }

  /** The guideline line (without its newline) for one platform, chosen on the lower-cased name. */
  function Guideline(platform: string): (line: string)
    ensures !IsKnownPlatform(platform) ==> line == Bullet + platform + FallbackAdvice
  {
    var key := Lower(platform);
    if key == "linkedin" then LinkedInGuideline
    else if key == "twitter" || key == "x" then TwitterGuideline
    else if key == "mastodon" then MastodonGuideline
    else if key == "devto" || key == "dev.to" then DevToGuideline
    else if key == "reddit" then RedditGuideline
    else Bullet + platform + FallbackAdvice
  }

  /** One `- message` line per commit, in order. */
  function Bullets(commits: seq<Commit>): (lines: seq<string>)
    ensures |lines| == |commits|
    ensures forall k :: 0 <= k < |commits| ==> lines[k] == "- " + commits[k].message
  {
    seq(|commits|, k requires 0 <= k < |commits| => "- " + commits[k].message)
  }

  /** One guideline line per requested platform, in order, duplicates included. */
  function Guidelines(platforms: seq<string>): (lines: seq<string>)
    ensures |lines| == |platforms|
    ensures forall k :: 0 <= k < |platforms| ==> lines[k] == Guideline(platforms[k])
  {
    seq(|platforms|, k requires 0 <= k < |platforms| => Guideline(platforms[k]))
  }

  function CommitSection(commits: seq<Commit>): string {
    Lines(Bullets(commits))
  }

  function GuidelineSection(platforms: seq<string>): string {
    Lines(Guidelines(platforms))
  }

  /** The three fixed texts of a prompt. */
  datatype PromptFrame = PromptFrame(preamble: string, guidelinesHeading: string, formatTrailer: string)

  /** The fixed texts `buildPrompt` writes. */
  const StandardFrame := PromptFrame(Preamble, GuidelinesHeading, FormatTrailer)

  /**
   * The whole prompt for the given commits and platforms around the given
   * fixed texts. The lemmas below hold for any fixed texts, so in particular
   * for `StandardFrame`.
   */
  function PromptText(frame: PromptFrame, commits: seq<Commit>, platforms: seq<string>): string {
    frame.preamble + CommitSection(commits) + frame.guidelinesHeading + GuidelineSection(platforms)
      + frame.formatTrailer
  }

  /** The first loop of `buildPrompt`: one `- message` line per commit. */
  method WriteCommitLines(sb: string, commits: seq<Commit>) returns (out: string)
    ensures out == sb + CommitSection(commits)
  {
    ghost var bullets := Bullets(commits);
    out := sb;
    for i := 0 to |commits|
      invariant out == sb + Lines(bullets[..i])
    {
      var line := "- " + commits[i].message;
      LinesPrefixSnoc(bullets, i);
      out := out + line + "\n";
    }
    assert bullets[..|commits|] == bullets;
  }

  /** The second loop of `buildPrompt`: one guideline line per platform, chosen on the lower-cased name. */
  method WriteGuidelines(sb: string, platforms: seq<string>) returns (out: string)
    ensures out == sb + GuidelineSection(platforms)
  {
    ghost var guidelines := Guidelines(platforms);
    out := sb;
    for i := 0 to |platforms|
      invariant out == sb + Lines(guidelines[..i])
    {
      var platform := platforms[i];
      var key := Lower(platform);
      var line;
      if key == "linkedin" {
        line := LinkedInGuideline;
      } else if key == "twitter" || key == "x" {
        line := TwitterGuideline;
      } else if key == "mastodon" {
        line := MastodonGuideline;
      } else if key == "devto" || key == "dev.to" {
        line := DevToGuideline;
      } else if key == "reddit" {
        line := RedditGuideline;
      } else {
        line := Bullet + platform + FallbackAdvice;
      }
      assert line == guidelines[i];
      LinesPrefixSnoc(guidelines, i);
      out := out + line + "\n";
    }
    assert guidelines[..|platforms|] == guidelines;
  }

  /** `buildPrompt`: the text assembled piece by piece in a string builder. */
  method BuildPrompt(commits: seq<Commit>, platforms: seq<string>) returns (prompt: string)
    ensures prompt == PromptText(StandardFrame, commits, platforms)
  {
    var sb := Preamble;
    sb := WriteCommitLines(sb, commits);
    sb := sb + GuidelinesHeading;
    sb := WriteGuidelines(sb, platforms);
    prompt := sb + FormatTrailer;
  }

  // ------------------------------------------------------- prompt properties

  /** A text that does not break a line. */
  predicate SingleLine(s: string) {
    forall i :: 0 <= i < |s| ==> s[i] != '\n'
  }

  lemma LinkedInGuidelineSingleLine()
    ensures '\n' !in LinkedInGuideline
  {
    assert SingleLine(Bullet);
    assert SingleLine("LinkedIn: Write a friendly and ");
    assert SingleLine("professional summary (2-4 sentences). ");
    assert SingleLine("Explain what changed and why it matters ");
    assert SingleLine("to developers or users.");
  }

  lemma TwitterGuidelineSingleLine()
    ensures '\n' !in TwitterGuideline
  {
    assert SingleLine(Bullet);
    assert SingleLine("Twitter/X: Write a short, catchy ");
    assert SingleLine("summary under 280 characters. Include ");
    assert SingleLine("emojis or hashtags if natural.");
  }

  lemma MastodonGuidelineSingleLine()
    ensures '\n' !in MastodonGuideline
  {
    assert SingleLine(Bullet);
    assert SingleLine("Mastodon: Write an open-source ");
    assert SingleLine("community-style update with clear tone ");
    assert SingleLine("and hashtags if relevant.");
  }

  lemma DevToGuidelineSingleLine()
    ensures '\n' !in DevToGuideline
  {
    assert SingleLine(Bullet);
    assert SingleLine("Dev.to: Write a short blog teaser — ");
    assert SingleLine("2-3 sentences that introduce the update ");
    assert SingleLine("and invite readers to learn more.");
  }

  lemma RedditGuidelineSingleLine()
    ensures '\n' !in RedditGuideline
  {
    assert SingleLine(Bullet);
    assert SingleLine("Reddit: Write a conversational ");
    assert SingleLine("summary that would fit in a ");
    assert SingleLine("/r/programming or /r/golang post, ");
    assert SingleLine("no emojis.");
  }

  /** No guideline breaks a line, as long as the platform name does not. */
  lemma GuidelineSingleLine(platform: string)
    requires '\n' !in platform
    ensures '\n' !in Guideline(platform)
  {
    var key := Lower(platform);
    if key == "linkedin" {
      LinkedInGuidelineSingleLine();
    } else if key == "twitter" || key == "x" {
      TwitterGuidelineSingleLine();
    } else if key == "mastodon" {
      MastodonGuidelineSingleLine();
    } else if key == "devto" || key == "dev.to" {
      DevToGuidelineSingleLine();
    } else if key == "reddit" {
      RedditGuidelineSingleLine();
    } else {
      assert SingleLine(Bullet);
      assert SingleLine(": Write a concise summary highlighting ");
      assert SingleLine("the main purpose and value of the change.");
    }
  }

  /** Where each of five concatenated pieces sits in the whole. */
  lemma Layout(p: string, a: string, b: string, c: string, d: string, e: string)
    requires p == a + b + c + d + e
    ensures |a| + |b| + |c| + |d| + |e| == |p|
    ensures HasPrefix(p, a)
    ensures p[|a|..|a| + |b|] == b
    ensures HasPrefix(p[|a| + |b|..], c)
    ensures p[|a| + |b| + |c|..|a| + |b| + |c| + |d|] == d
    ensures p[|a| + |b| + |c| + |d|..] == e
  {
    assert p == a + (b + (c + (d + e)));
  }

  /** The commit section is one `- message` line per commit, in order. */
  lemma CommitSectionLines(commits: seq<Commit>)
    requires forall k :: 0 <= k < |commits| ==> '\n' !in commits[k].message
    ensures Split(CommitSection(commits), '\n') == Bullets(commits) + [""]
  {
    var bullets := Bullets(commits);
    forall k | 0 <= k < |bullets| ensures '\n' !in bullets[k] {
      assert bullets[k] == "- " + commits[k].message;
    }
    SplitLines(bullets);
  }

  /** The guideline section is one guideline line per platform, in order, with repetitions. */
  lemma GuidelineSectionLines(platforms: seq<string>)
    requires forall k :: 0 <= k < |platforms| ==> '\n' !in platforms[k]
    ensures Split(GuidelineSection(platforms), '\n') == Guidelines(platforms) + [""]
  {
    var guidelines := Guidelines(platforms);
    forall k | 0 <= k < |guidelines| ensures '\n' !in guidelines[k] {
      GuidelineSingleLine(platforms[k]);
    }
    SplitLines(guidelines);
  }

  /**
   * The prompt is its five pieces one after the other, whatever the commits
   * and platforms: the preamble, the commit section, the guidelines heading,
   * the guideline section and the format instructions.
   */
  lemma PromptLayout(frame: PromptFrame, commits: seq<Commit>, platforms: seq<string>)
    ensures var p := PromptText(frame, commits, platforms);
      var c := |frame.preamble| + |CommitSection(commits)|;
      var g := c + |frame.guidelinesHeading|;
      var t := g + |GuidelineSection(platforms)|;
      && t <= |p|
      && HasPrefix(p, frame.preamble)
      && p[|frame.preamble|..c] == CommitSection(commits)
      && HasPrefix(p[c..], frame.guidelinesHeading)
      && p[g..t] == GuidelineSection(platforms)
      && p[t..] == frame.formatTrailer
  {
    Layout(PromptText(frame, commits, platforms), frame.preamble, CommitSection(commits),
      frame.guidelinesHeading, GuidelineSection(platforms), frame.formatTrailer);
  }

  /**
   * The prompt opens with the preamble, followed by the commit section and
   * then the guidelines heading; the commit section splits into exactly one
   * `- message` line per commit, in order.
   */
  lemma PromptCommitLines(frame: PromptFrame, commits: seq<Commit>, platforms: seq<string>)
    requires forall k :: 0 <= k < |commits| ==> '\n' !in commits[k].message
    ensures var p := PromptText(frame, commits, platforms);
      var start := |frame.preamble|;
      var end := start + |CommitSection(commits)|;
      && end <= |p|
      && HasPrefix(p, frame.preamble)
      && p[start..end] == CommitSection(commits)
      && HasPrefix(p[end..], frame.guidelinesHeading)
    ensures Split(CommitSection(commits), '\n') == Bullets(commits) + [""]
  {
    PromptLayout(frame, commits, platforms);
    CommitSectionLines(commits);
  }

  /**
   * The prompt ends with the guideline section, followed by the format
   * instructions, which do not depend on the commits or the platforms; the
   * guideline section splits into exactly one guideline line per requested
   * platform, in order and with repetitions.
   */
  lemma PromptGuidelineLines(frame: PromptFrame, commits: seq<Commit>, platforms: seq<string>)
    requires forall k :: 0 <= k < |platforms| ==> '\n' !in platforms[k]
    ensures var p := PromptText(frame, commits, platforms);
      var start := |frame.preamble| + |CommitSection(commits)| + |frame.guidelinesHeading|;
      var end := start + |GuidelineSection(platforms)|;
      && end <= |p|
      && p[start..end] == GuidelineSection(platforms)
      && p[end..] == frame.formatTrailer
    ensures Split(GuidelineSection(platforms), '\n') == Guidelines(platforms) + [""]
  {
    PromptLayout(frame, commits, platforms);
    GuidelineSectionLines(platforms);
  }

  /** With no commits the guidelines heading follows the preamble directly. */
  lemma PromptNoCommits(frame: PromptFrame, platforms: seq<string>)
    ensures PromptText(frame, [], platforms)
      == frame.preamble + frame.guidelinesHeading + GuidelineSection(platforms) + frame.formatTrailer
  {
    assert CommitSection([]) == [] by {
      assert Bullets([]) == [];
    }
    assert frame.preamble + CommitSection([]) == frame.preamble;
  }

  /** Only the commit messages reach the prompt: hashes, authors and dates do not. */
  lemma PromptMessagesOnly(frame: PromptFrame, a: seq<Commit>, b: seq<Commit>, platforms: seq<string>)
    requires |a| == |b|
    requires forall k :: 0 <= k < |a| ==> a[k].message == b[k].message
    ensures PromptText(frame, a, platforms) == PromptText(frame, b, platforms)
  {
    assert Bullets(a) == Bullets(b);
  }

  /** The guideline section of a concatenated platform list is the concatenation of the sections. */
  lemma GuidelineSectionAppend(ps: seq<string>, qs: seq<string>)
    ensures GuidelineSection(ps + qs) == GuidelineSection(ps) + GuidelineSection(qs)
  {
    var g, h := Guidelines(ps + qs), Guidelines(ps) + Guidelines(qs);
    forall k | 0 <= k < |g| ensures g[k] == h[k] {
      if k < |ps| {
        assert (ps + qs)[k] == ps[k];
      } else {
        assert (ps + qs)[k] == qs[k - |ps|];
      }
    }
    assert g == h;
    LinesAppend(Guidelines(ps), Guidelines(qs));
  }

  /** "twitter", "x" and, for example, "Twitter" share the Twitter/X guideline; `GuidelineCaseInsensitive` gives every capitalisation. */
  lemma TwitterAliases()
    ensures Guideline("x") == Guideline("twitter") == Guideline("Twitter") == TwitterGuideline
  {
    assert Lower("Twitter") == "twitter";
  }

  /** "devto", "dev.to" and, for example, "DevTo" share the Dev.to guideline; `GuidelineCaseInsensitive` gives every capitalisation. */
  lemma DevToAliases()
    ensures Guideline("dev.to") == Guideline("devto") == Guideline("DevTo") == DevToGuideline
  {
    assert Lower("DevTo") == "devto";
  }

  /** The LinkedIn guideline is found for, for example, "LinkedIn" and "LINKEDIN"; `GuidelineCaseInsensitive` gives every capitalisation. */
  lemma LinkedInAnyCase()
    ensures Guideline("LinkedIn") == Guideline("LINKEDIN") == LinkedInGuideline
  {
    assert Lower("LinkedIn") == "linkedin";
    assert Lower("LINKEDIN") == "linkedin";
  }

  /** For a known platform the guideline depends only on the lower-cased name. */
  lemma GuidelineCaseInsensitive(p: string, q: string)
    requires IsKnownPlatform(p) && Lower(p) == Lower(q)
    ensures Guideline(p) == Guideline(q)
  {
  }

  /** An unknown platform is named on its line exactly as given, capitalisation included. */
  lemma GuidelineUnknownVerbatim()
    ensures Guideline("Bluesky") == Bullet + "Bluesky" + FallbackAdvice
    ensures Guideline("bluesky") == Bullet + "bluesky" + FallbackAdvice
    ensures Guideline("Bluesky") != Guideline("bluesky")
  {
    assert Lower("Bluesky") == "bluesky";
    assert Guideline("Bluesky")[2] == 'B';
  }

  /** The guideline lines for Mastodon followed by an unknown platform. */
  lemma GuidelineSectionExample()
    ensures Guidelines(["mastodon", "bluesky"]) == [MastodonGuideline, Bullet + "bluesky" + FallbackAdvice]
  {
    assert Guideline("mastodon") == MastodonGuideline by {
      assert Lower("mastodon") == "mastodon";
    }
    GuidelineUnknownVerbatim();
  }

  // ----------------------------------------------------------------- reply

  /** A line whose lower-cased text starts with "linkedin:". */
  predicate IsLinkedInLine(line: string) {
    HasPrefix(Lower(line), "linkedin:")
  }

  /** A line whose lower-cased text starts with "twitter:". */
  predicate IsTwitterLine(line: string) {
    HasPrefix(Lower(line), "twitter:")
  }

  /** The post on a LinkedIn line: only the exact label "LinkedIn:" is stripped. */
  function LinkedInValue(line: string): string {
    TrimSpace(TrimPrefix(line, "LinkedIn:"))
  }

  /** The post on a Twitter line: only the exact label "Twitter:" is stripped. */
  function TwitterValue(line: string): string {
    TrimSpace(TrimPrefix(line, "Twitter:"))
  }

  /** One step of the scan: a LinkedIn line wins over the Twitter test. */
  function ScanLine(posts: GeneratedPosts, line: string): GeneratedPosts {
    if IsLinkedInLine(line) then posts.(linkedIn := LinkedInValue(line))
    else if IsTwitterLine(line) then posts.(twitter := TwitterValue(line))
    else posts
  }

  /** The posts after scanning the lines in order, from empty fields. */
  function Scan(lines: seq<string>): GeneratedPosts {
    if lines == [] then GeneratedPosts("", "")
    else ScanLine(Scan(lines[..|lines| - 1]), lines[|lines| - 1])
  }

  /** The posts read from a reply; a field left empty falls back to the whole reply. */
  function Parsed(text: string): GeneratedPosts {
    var scanned := Scan(Split(text, '\n'));
    GeneratedPosts(
      if scanned.linkedIn == "" then text else scanned.linkedIn,
      if scanned.twitter == "" then text else scanned.twitter)
  }

  /** `parseResponse`: a loop over the reply's lines. */
  method ParseResponse(text: string) returns (posts: GeneratedPosts)
    ensures posts == Parsed(text)
  {
    var lines := Split(text, '\n');
    posts := GeneratedPosts("", "");
    for i := 0 to |lines|
      invariant posts == Scan(lines[..i])
    {
      var line := lines[i];
      assert lines[..i + 1][..i] == lines[..i];
      if HasPrefix(Lower(line), "linkedin:") {
        posts := posts.(linkedIn := TrimSpace(TrimPrefix(line, "LinkedIn:")));
      } else if HasPrefix(Lower(line), "twitter:") {
        posts := posts.(twitter := TrimSpace(TrimPrefix(line, "Twitter:")));
      }
    }
    assert lines[..|lines|] == lines;
    if posts.linkedIn == "" {
      posts := posts.(linkedIn := text);
    }
    if posts.twitter == "" {
      posts := posts.(twitter := text);
    }
  }

  // -------------------------------------------------------- reply properties

  /** No line is both a LinkedIn line and a Twitter line. */
  lemma LinkedInNotTwitter(line: string)
    ensures !(IsLinkedInLine(line) && IsTwitterLine(line))
  {
    if IsLinkedInLine(line) {
      assert Lower(line)[0] == 'l';
    }
  }

  /** The LinkedIn field holds the value of the last LinkedIn line. */
  lemma {:induction false} ScanLinkedInLast(lines: seq<string>, k: nat)
    requires k < |lines| && IsLinkedInLine(lines[k])
    requires forall j :: k < j < |lines| ==> !IsLinkedInLine(lines[j])
    ensures Scan(lines).linkedIn == LinkedInValue(lines[k])
    decreases |lines|
  {
    if k < |lines| - 1 {
      ScanLinkedInLast(lines[..|lines| - 1], k);
    }
  }

  /** Without a LinkedIn line the LinkedIn field stays empty. */
  lemma {:induction false} ScanLinkedInAbsent(lines: seq<string>)
    requires forall j :: 0 <= j < |lines| ==> !IsLinkedInLine(lines[j])
    ensures Scan(lines).linkedIn == ""
    decreases |lines|
  {
    if lines != [] {
      ScanLinkedInAbsent(lines[..|lines| - 1]);
    }
  }

  /** The Twitter field holds the value of the last Twitter line. */
  lemma {:induction false} ScanTwitterLast(lines: seq<string>, k: nat)
    requires k < |lines| && IsTwitterLine(lines[k])
    requires forall j :: k < j < |lines| ==> !IsTwitterLine(lines[j])
    ensures Scan(lines).twitter == TwitterValue(lines[k])
    decreases |lines|
  {
    if k < |lines| - 1 {
      ScanTwitterLast(lines[..|lines| - 1], k);
    } else {
      LinkedInNotTwitter(lines[k]);
    }
  }

  /** Without a Twitter line the Twitter field stays empty; LinkedIn lines never set it. */
  lemma {:induction false} ScanTwitterAbsent(lines: seq<string>)
    requires forall j :: 0 <= j < |lines| ==> !IsTwitterLine(lines[j])
    ensures Scan(lines).twitter == ""
    decreases |lines|
  {
    if lines != [] {
      ScanTwitterAbsent(lines[..|lines| - 1]);
    }
  }

  /**
   * The LinkedIn post is the value of the reply's last LinkedIn line, or
   * the whole reply when that value is empty.
   */
  lemma ParsedLinkedInLast(text: string, k: nat)
    requires var lines := Split(text, '\n');
      && k < |lines| && IsLinkedInLine(lines[k])
      && forall j :: k < j < |lines| ==> !IsLinkedInLine(lines[j])
    ensures var v := LinkedInValue(Split(text, '\n')[k]);
      Parsed(text).linkedIn == if v == "" then text else v
  {
    ScanLinkedInLast(Split(text, '\n'), k);
  }

  /** Without a LinkedIn line the LinkedIn post is the whole reply. */
  lemma ParsedLinkedInAbsent(text: string)
    requires forall j :: 0 <= j < |Split(text, '\n')| ==> !IsLinkedInLine(Split(text, '\n')[j])
    ensures Parsed(text).linkedIn == text
  {
    ScanLinkedInAbsent(Split(text, '\n'));
  }

  /**
   * The Twitter post is the value of the reply's last Twitter line, or the
   * whole reply when that value is empty.
   */
  lemma ParsedTwitterLast(text: string, k: nat)
    requires var lines := Split(text, '\n');
      && k < |lines| && IsTwitterLine(lines[k])
      && forall j :: k < j < |lines| ==> !IsTwitterLine(lines[j])
    ensures var v := TwitterValue(Split(text, '\n')[k]);
      Parsed(text).twitter == if v == "" then text else v
  {
    ScanTwitterLast(Split(text, '\n'), k);
  }

  /** Without a Twitter line the Twitter post is the whole reply. */
  lemma ParsedTwitterAbsent(text: string)
    requires forall j :: 0 <= j < |Split(text, '\n')| ==> !IsTwitterLine(Split(text, '\n')[j])
    ensures Parsed(text).twitter == text
  {
    ScanTwitterAbsent(Split(text, '\n'));
  }

  /** Both posts are non-empty for a non-empty reply, and both empty for an empty one. */
  lemma ParsedNonEmpty(text: string)
    ensures text != "" ==> Parsed(text).linkedIn != "" && Parsed(text).twitter != ""
    ensures text == "" ==> Parsed(text) == GeneratedPosts("", "")
  {
    if text == "" {
      assert Split(text, '\n') == [""];
      assert Scan([""]) == ScanLine(Scan([]), "");
    }
  }

  /** How the two labels, written exactly as in the requested format, are read. */
  lemma LabelledLines(value: string)
    ensures IsLinkedInLine("LinkedIn:" + value) && LinkedInValue("LinkedIn:" + value) == TrimSpace(value)
    ensures IsTwitterLine("Twitter:" + value) && !IsLinkedInLine("Twitter:" + value)
    ensures TwitterValue("Twitter:" + value) == TrimSpace(value)
  {
    var li, tw := "LinkedIn:" + value, "Twitter:" + value;
    assert Lower(li)[..9] == "linkedin:";
    assert li[..9] == "LinkedIn:";
    assert Lower(tw)[..8] == "twitter:";
    assert tw[..8] == "Twitter:";
    assert Lower(tw)[0] == 't';
  }

  /** A LinkedIn line followed by a Twitter line yields both values, each falling back to the reply when empty. */
  lemma ParsedTwoLines(a: string, b: string)
    requires '\n' !in a && '\n' !in b
    requires IsLinkedInLine(a) && IsTwitterLine(b)
    ensures var text := a + "\n" + b;
      Parsed(text) == GeneratedPosts(
        if LinkedInValue(a) == "" then text else LinkedInValue(a),
        if TwitterValue(b) == "" then text else TwitterValue(b))
  {
    var text := a + "\n" + b;
    assert Split(text, '\n') == [a, b] by {
      SplitJoin([a, b], '\n');
      assert Join([a, b], '\n') == text;
    }
    LinkedInNotTwitter(b);
    assert Scan([a, b]) == ScanLine(ScanLine(Scan([]), a), b) by {
      assert [a, b][..1] == [a];
      assert [a] [..0] == [];
    }
  }

  /** A line starting with "linkedin:" in lower case is a LinkedIn line whose value keeps the label. */
  lemma LowercaseLabelValue(value: string)
    ensures IsLinkedInLine("linkedin:" + value)
    ensures HasPrefix(LinkedInValue("linkedin:" + value), "linkedin:")
  {
    var line := "linkedin:" + value;
    assert Lower(line)[..9] == "linkedin:";
    assert line[0] == 'l';
    assert LinkedInValue(line) == TrimSpace(line);
    TrimSpaceSlice(line);
    assert !IsSpace(line[0]) && !IsSpace(line[8]);
  }

  /** A label in other capitalisation is recognised but not stripped, so the post keeps it. */
  lemma ParsedLowercaseLabel(value: string)
    requires '\n' !in value
    ensures HasPrefix(Parsed("linkedin:" + value).linkedIn, "linkedin:")
  {
    var line := "linkedin:" + value;
    assert Split(line, '\n') == [line] by {
      assert '\n' !in "linkedin:";
    }
    assert HasPrefix(line, "linkedin:") by {
      assert line[..9] == "linkedin:";
    }
    LowercaseLabelValue(value);
    ParsedLinkedInLast(line, 0);
  }
}
