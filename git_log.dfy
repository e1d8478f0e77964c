/**
 * The text-processing half of the Git collaborator: the `git log` argument
 * list, the parser for its `%h|%an|%ad|%s` output and the extraction of a
 * project description from a README file. Running `git`, probing the file
 * system and parsing dates are parameters.
 */
module GitLog {
  import opened Results
  import opened Strings

  /** An instant as `time.Time` holds it. The core only ever produces parsed values or the zero value. */
  datatype Time = Time(unixSeconds: int, zoneOffsetSeconds: int)

  /** Go's zero `time.Time{}`: January 1 of year 1, 00:00:00 UTC. */
  const ZeroTime := Time(-62135596800, 0)

  datatype Commit = Commit(hash: string, author: string, date: Time, message: string)

  /** The layout the dates of `--date=iso` are parsed with. */
  const DateLayout := "2006-01-02 15:04:05 -0700"

  const BaseArgs := ["log", "--pretty=format:%h|%an|%ad|%s", "--date=iso"]

  /**
   * What the process environment answers: whether `git` is on the path, the
   * output of `git rev-parse --is-inside-work-tree` (None when it failed),
   * the stdout of `git` run with an argument list (or the failure text), and
   * `time.Parse(DateLayout, ·)`.
   */
  datatype GitHost = GitHost(
    installed: bool,
    revParse: Option<string>,
    run: seq<string> -> Result<string, string>,
    parseDate: string -> Option<Time>)

  /** `IsGitRepo`: rev-parse succeeded and printed `true`. */
  predicate IsGitRepo(host: GitHost) {
    host.revParse.Some? && TrimSpace(host.revParse.value) == "true"
  }

  /**
   * A failed `rev-parse` is no repository; its output counts only when it is
   * `true` once white space is trimmed, so a trailing newline is accepted.
   */
  lemma IsGitRepoOutput(host: GitHost)
    ensures host.revParse.None? ==> !IsGitRepo(host)
    ensures host.revParse == Some("true\n") ==> IsGitRepo(host)
    ensures host.revParse == Some("false\n") ==> !IsGitRepo(host)
  {
    var t := "true\n";
    assert SkipSpace(t, 0) == 0 && SkipSpaceBack(t, 0, |t|) == 4;
    var f := "false\n";
    assert SkipSpace(f, 0) == 0 && SkipSpaceBack(f, 0, |f|) == 5;
  }

  /** The arguments of `git log`: a range when given, otherwise a positive limit, otherwise nothing extra. */
  function LogArgs(rangeArg: string, limit: int): (args: seq<string>)
    ensures 3 <= |args| <= 4 && args[..3] == BaseArgs
    ensures |args| == 4 <==> rangeArg != "" || limit > 0
    ensures rangeArg != "" ==> args[3] == rangeArg
    ensures rangeArg == "" && limit > 0 ==> |args| == 4 && HasPrefix(args[3], "-n")
  {
    if rangeArg != "" then BaseArgs + [rangeArg]
    else if limit > 0 then BaseArgs + ["-n" + Decimal(limit)]
    else BaseArgs
  }

  /** A range wins over a limit, and the `-n` argument carries the limit in decimal. */
  lemma LogArgsLimit(rangeArg: string, limit: int)
    ensures rangeArg != "" ==> LogArgs(rangeArg, limit) == LogArgs(rangeArg, 0)
    ensures rangeArg == "" && limit > 0 ==> LogArgs(rangeArg, limit)[3] == "-n" + Decimal(limit)
    ensures rangeArg == "" && limit > 0 ==>
      var arg := LogArgs(rangeArg, limit)[3];
      (forall k :: 2 <= k < |arg| ==> '0' <= arg[k] <= '9') && DecimalValue(arg[2..]) == limit
  {
    if rangeArg == "" && limit > 0 {
      var arg := LogArgs(rangeArg, limit)[3];
      assert arg[2..] == Decimal(limit);
      DecimalRoundTrip(limit);
    }
  }

  /** The date of a commit: the parsed value, or the zero time when parsing fails. */
  function DateOf(parseDate: string -> Option<Time>, text: string): (t: Time)
    ensures parseDate(text).None? ==> t == ZeroTime
    ensures parseDate(text).Some? ==> t == parseDate(text).value
  {
    match parseDate(text)
    case Some(t) => t
    case None => ZeroTime
  }

  /** One `git log` line: split on the first three `|`, each field trimmed; fewer than four fields is no commit. */
  function ParseLine(line: string, parseDate: string -> Option<Time>): (c: Option<Commit>)
    ensures c.Some? <==> Count(line, '|') >= 3
  {
    SplitNLength(line, '|', 4);
    var parts := SplitN(line, '|', 4);
    if |parts| < 4 then None
    else Some(Commit(TrimSpace(parts[0]), TrimSpace(parts[1]),
                     DateOf(parseDate, TrimSpace(parts[2])), TrimSpace(parts[3])))
  }

  /** The commits of a list of lines, in line order, unparsable lines dropped. */
  function ParseLines(lines: seq<string>, parseDate: string -> Option<Time>): seq<Commit> {
    if lines == [] then []
    else
      var init := ParseLines(lines[..|lines| - 1], parseDate);
      match ParseLine(lines[|lines| - 1], parseDate)
      case Some(c) => init + [c]
      case None => init
  }

  /** The commits of the whole `git log` output: trimmed, then split on newlines. */
  function ParseLog(output: string, parseDate: string -> Option<Time>): seq<Commit> {
    ParseLines(Split(TrimSpace(output), '\n'), parseDate)
  }

  /** `GetCommits`: checks the environment, runs `git log` once and parses its lines. */
  method GetCommits(host: GitHost, rangeArg: string, limit: int) returns (r: Result<seq<Commit>, string>)
    ensures !host.installed ==> r == Err("git is not installed on this system")
    ensures host.installed && !IsGitRepo(host) ==> r == Err("current directory is not a git repository")
    ensures host.installed && IsGitRepo(host) ==>
      match host.run(LogArgs(rangeArg, limit))
      case Err(e) => r == Err("failed to read git logs: " + e)
      case Ok(out) => r == Ok(ParseLog(out, host.parseDate))
  {
    if !host.installed {
      return Err("git is not installed on this system");
    }
    if !IsGitRepo(host) {
      return Err("current directory is not a git repository");
    }
    var args := BaseArgs;
    if rangeArg != "" {
      args := args + [rangeArg];
    } else if limit > 0 {
      args := args + ["-n" + Decimal(limit)];
    }
    var out := host.run(args);
    if out.Err? {
      return Err("failed to read git logs: " + out.error);
    }
    var lines := Split(TrimSpace(out.value), '\n');
    var commits: seq<Commit> := [];
    for i := 0 to |lines|
      invariant commits == ParseLines(lines[..i], host.parseDate)
    {
      assert lines[..i + 1][..i] == lines[..i];
      var parsed := ParseLine(lines[i], host.parseDate);
      if parsed.None? {
        continue;
      }
      commits := commits + [parsed.value];
    }
    assert lines[..|lines|] == lines;
    return Ok(commits);
  }

  /** Parsing the concatenation of two line lists concatenates their commits: order is kept. */
  lemma {:induction false} ParseLinesAppend(a: seq<string>, b: seq<string>, parseDate: string -> Option<Time>)
    ensures ParseLines(a + b, parseDate) == ParseLines(a, parseDate) + ParseLines(b, parseDate)
    decreases |b|
  {
    if b == [] {
      assert a + b == a;
    } else {
      var b' := b[..|b| - 1];
      assert (a + b)[..|a + b| - 1] == a + b';
      assert (a + b)[|a + b| - 1] == b[|b| - 1];
      ParseLinesAppend(a, b', parseDate);
    }
  }

  /** There are never more commits than lines. */
  lemma {:induction false} ParseLinesBound(lines: seq<string>, parseDate: string -> Option<Time>)
    ensures |ParseLines(lines, parseDate)| <= |lines|
  {
    if lines != [] {
      ParseLinesBound(lines[..|lines| - 1], parseDate);
    }
  }

  /** A line is kept exactly when it is parsable, and then as the commit it parses to. */
  lemma ParseLinesSingle(line: string, parseDate: string -> Option<Time>)
    ensures ParseLines([line], parseDate) == (if Count(line, '|') >= 3 then [ParseLine(line, parseDate).value] else [])
  {
    assert [line][..0] == [];
  }

  /** Only the first three `|` split a line: the fourth piece is the whole rest. */
  lemma SplitNFields(hash: string, author: string, date: string, message: string)
    requires '|' !in hash && '|' !in author && '|' !in date
    ensures SplitN(hash + "|" + author + "|" + date + "|" + message, '|', 4) == [hash, author, date, message]
  {
    assert hash + "|" + author + "|" + date + "|" + message
      == hash + ['|'] + (author + ['|'] + (date + ['|'] + message));
    SplitNNested(hash, author, date, message, '|', 4);
    assert SplitN(message, '|', 1) == [message];
  }

  lemma SplitNNested(hash: string, author: string, date: string, message: string, c: char, n: nat)
    requires n >= 4 && c !in hash && c !in author && c !in date
    ensures SplitN(hash + [c] + (author + [c] + (date + [c] + message)), c, n)
      == [hash, author, date] + SplitN(message, c, n - 3)
  {
    var rest2 := date + [c] + message;
    var rest1 := author + [c] + rest2;
    calc {
      SplitN(hash + [c] + rest1, c, n);
      == { SplitNCons(hash, rest1, c, n); }
      [hash] + SplitN(rest1, c, n - 1);
      == { SplitNCons(author, rest2, c, n - 1); }
      [hash] + ([author] + SplitN(rest2, c, n - 2));
      == { SplitNCons(date, message, c, n - 2); }
      [hash] + ([author] + ([date] + SplitN(message, c, n - 3)));
      == { assert [hash] + ([author] + [date]) == [hash, author, date]; }
      [hash, author, date] + SplitN(message, c, n - 3);
    }
  }

  /**
   * A line of the `%h|%an|%ad|%s` format parses to its trimmed fields; the
   * message keeps any later `|`.
   */
  lemma ParseLineFields(hash: string, author: string, date: string, message: string,
                        parseDate: string -> Option<Time>)
    requires '|' !in hash && '|' !in author && '|' !in date
    ensures ParseLine(hash + "|" + author + "|" + date + "|" + message, parseDate)
         == Some(Commit(TrimSpace(hash), TrimSpace(author),
                        DateOf(parseDate, TrimSpace(date)), TrimSpace(message)))
  {
    SplitNFields(hash, author, date, message);
  }

  /** No piece of a SplitN holds a character absent from the input. */
  lemma {:induction false} SplitNFree(s: string, sep: char, n: nat, c: char)
    requires n >= 1 && c !in s
    ensures forall k :: 0 <= k < |SplitN(s, sep, n)| ==> c !in SplitN(s, sep, n)[k]
    decreases n
  {
    if n > 1 && sep in s {
      var i := IndexOf(s, sep);
      assert forall k :: 0 <= k < i ==> s[..i][k] == s[k];
      SplitNFree(s[i + 1..], sep, n - 1, c);
    }
  }

  /** A commit read from a line holds no newline in its message. */
  lemma {:induction false} ParseLinesSingleLine(lines: seq<string>, parseDate: string -> Option<Time>)
    requires forall k :: 0 <= k < |lines| ==> '\n' !in lines[k]
    ensures forall k :: 0 <= k < |ParseLines(lines, parseDate)| ==> '\n' !in ParseLines(lines, parseDate)[k].message
  {
    if lines != [] {
      var last := lines[|lines| - 1];
      ParseLinesSingleLine(lines[..|lines| - 1], parseDate);
      SplitNLength(last, '|', 4);
      SplitNFree(last, '|', 4, '\n');
      if Count(last, '|') >= 3 {
        TrimSpaceNotIn(SplitN(last, '|', 4)[3], '\n');
      }
    }
  }

  /** Every commit of a `git log` output has a single-line message. */
  lemma ParseLogSingleLine(output: string, parseDate: string -> Option<Time>)
    ensures forall k :: 0 <= k < |ParseLog(output, parseDate)| ==> '\n' !in ParseLog(output, parseDate)[k].message
  {
    var lines := Split(TrimSpace(output), '\n');
    SplitPieces(TrimSpace(output), '\n');
    assert forall k :: 0 <= k < |lines| ==> lines[k] in lines;
    ParseLinesSingleLine(lines, parseDate);
  }

  // ---------------------------------------------------------------------------
  // Project description
  // ---------------------------------------------------------------------------

  /** The README files looked for, in order. */
  const ReadmeCandidates := ["README.md", "README.txt", "README", "readme.md", "readme.txt", "readme"]

  /** From the fourth line on, gathering stops once the text is longer than this. */
  const DescriptionLimit := 200

  /** A trimmed line with one leading `#` and then one leading `>` removed, each removal followed by a trim. */
  function CleanLine(line: string): string {
    var unheaded := if HasPrefix(line, "#") then TrimSpace(TrimPrefix(line, "#")) else line;
    if HasPrefix(unheaded, ">") then TrimSpace(TrimPrefix(unheaded, ">")) else unheaded
  }

  /** What a line adds to the description when nothing stops the gathering: nothing for a blank line. */
  function Contribution(line: string): (part: string)
    ensures part == "" <==> TrimSpace(line) == ""
  {
    var trimmed := TrimSpace(line);
    if trimmed == "" then "" else CleanLine(trimmed) + " "
  }

  /** The contribution of every line. */
  function Contributions(lines: seq<string>): (parts: seq<string>)
    ensures |parts| == |lines|
  {
    if lines == [] then [] else [Contribution(lines[0])] + Contributions(lines[1..])
  }

  /** Each line's contribution sits at its own index. */
  lemma {:induction false} ContributionAt(lines: seq<string>, k: nat)
    requires k < |lines|
    ensures Contributions(lines)[k] == Contribution(lines[k])
  {
    var parts := Contributions(lines);
    if k == 0 {
      assert parts == [Contribution(lines[0])] + Contributions(lines[1..]);
    } else {
      ContributionAt(lines[1..], k - 1);
      assert parts[k] == Contributions(lines[1..])[k - 1];
      assert lines[1..][k - 1] == lines[k];
    }
  }

  /**
   * The loop of `GetProjectDescription` from line `i` on, over the lines'
   * contributions, with `acc` gathered so far: a non-blank line at index 3
   * or later that makes the text longer than the limit is the last one taken.
   */
  function Gather(parts: seq<string>, i: nat, acc: string): string
    requires i <= |parts|
    decreases |parts| - i
  {
    if i == |parts| then acc
    else if parts[i] == "" then Gather(parts, i + 1, acc)
    else
      var acc' := acc + parts[i];
      if i >= 3 && |acc'| > DescriptionLimit then acc' else Gather(parts, i + 1, acc')
  }

  /** Everything from index `i` on, with no limit. */
  function Concat(parts: seq<string>, i: nat): string
    requires i <= |parts|
    decreases |parts| - i
  {
    if i == |parts| then "" else parts[i] + Concat(parts, i + 1)
  }

  /** The description one README text yields. */
  function Description(content: string): string {
    TrimSpace(Gather(Contributions(Split(content, '\n')), 0, ""))
  }

  /** Concat unfolds one element at a time. */
  lemma ConcatStep(parts: seq<string>, i: nat, acc: string)
    requires i < |parts|
    ensures acc + Concat(parts, i) == (acc + parts[i]) + Concat(parts, i + 1)
  {
  }

  /** Gathering only appends, and appends whole lines in order: it yields `acc` and then a prefix of the rest. */
  lemma {:induction false} GatherPrefix(parts: seq<string>, i: nat, acc: string)
    requires i <= |parts|
    ensures |acc| <= |Gather(parts, i, acc)| <= |acc + Concat(parts, i)|
    ensures Gather(parts, i, acc) == (acc + Concat(parts, i))[..|Gather(parts, i, acc)|]
    decreases |parts| - i
  {
    if i < |parts| {
      var acc' := acc + parts[i];
      ConcatStep(parts, i, acc);
      if parts[i] != "" && i >= 3 && |acc'| > DescriptionLimit {
        assert Gather(parts, i, acc) == acc';
        assert (acc' + Concat(parts, i + 1))[..|acc'|] == acc';
      } else {
        GatherTake(parts, i, acc);
        GatherPrefix(parts, i + 1, acc');
      }
    }
  }

  /** When everything fits in the limit, the whole text is gathered. */
  lemma {:induction false} GatherWithinLimit(parts: seq<string>, i: nat, acc: string)
    requires i <= |parts|
    requires |acc + Concat(parts, i)| <= DescriptionLimit
    ensures Gather(parts, i, acc) == acc + Concat(parts, i)
    decreases |parts| - i
  {
    if i < |parts| {
      var acc' := acc + parts[i];
      ConcatStep(parts, i, acc);
      if parts[i] == "" {
        assert acc' == acc;
        GatherWithinLimit(parts, i + 1, acc);
      } else {
        GatherWithinLimit(parts, i + 1, acc');
      }
    }
  }

  /** Text is cut off only once the gathered part is longer than the limit. */
  lemma {:induction false} GatherCutPastLimit(parts: seq<string>, i: nat, acc: string)
    requires i <= |parts|
    requires Gather(parts, i, acc) != acc + Concat(parts, i)
    ensures |Gather(parts, i, acc)| > DescriptionLimit
    decreases |parts| - i
  {
    var acc' := acc + parts[i];
    ConcatStep(parts, i, acc);
    if parts[i] == "" {
      assert acc' == acc;
      GatherCutPastLimit(parts, i + 1, acc);
    } else if !(i >= 3 && |acc'| > DescriptionLimit) {
      GatherCutPastLimit(parts, i + 1, acc');
    }
  }

  /** The contributions from index `i` up to, not including, `j`. */
  function Between(parts: seq<string>, i: nat, j: nat): string
    requires i <= j <= |parts|
    decreases j - i
  {
    if i == j then "" else parts[i] + Between(parts, i + 1, j)
  }

  /** The contributions up to `j` are where the contributions from `i` on begin. */
  lemma {:induction false} BetweenConcat(parts: seq<string>, i: nat, j: nat)
    requires i <= j <= |parts|
    ensures Concat(parts, i) == Between(parts, i, j) + Concat(parts, j)
    decreases j - i
  {
    if i < j {
      BetweenConcat(parts, i + 1, j);
    }
  }

  /**
   * Gathering stops at the limit: once a non-blank line at index 3 or later
   * takes the text past 200 characters, nothing after that line is gathered.
   */
  lemma {:induction false} GatherStops(parts: seq<string>, i: nat, acc: string, j: nat)
    requires i <= j < |parts| && 3 <= j && parts[j] != ""
    requires |acc| + |Between(parts, i, j + 1)| > DescriptionLimit
    ensures |Gather(parts, i, acc)| <= |acc + Between(parts, i, j + 1)|
    ensures Gather(parts, i, acc) == (acc + Between(parts, i, j + 1))[..|Gather(parts, i, acc)|]
  {
    ConcatSplitAt(acc, parts, i, j + 1);
    GatherPrefix(parts, i, acc);
    GatherStopsLength(parts, i, acc, j);
    PrefixOfFront(Gather(parts, i, acc), acc + Between(parts, i, j + 1), Concat(parts, j + 1));
  }

  /** The text from line `i` on, seen as the lines before `j` and the lines from `j` on. */
  lemma ConcatSplitAt(acc: string, parts: seq<string>, i: nat, j: nat)
    requires i <= j <= |parts|
    ensures acc + Concat(parts, i) == (acc + Between(parts, i, j)) + Concat(parts, j)
  {
    BetweenConcat(parts, i, j);
  }

  /** A prefix of `x + y` no longer than `x` is a prefix of `x`. */
  lemma PrefixOfFront(g: string, x: string, y: string)
    requires |g| <= |x| && g == (x + y)[..|g|]
    ensures g == x[..|g|]
  {
    assert (x + y)[..|g|] == x[..|g|];
  }

  lemma {:induction false} GatherStopsLength(parts: seq<string>, i: nat, acc: string, j: nat)
    requires i <= j < |parts| && 3 <= j && parts[j] != ""
    requires |acc| + |Between(parts, i, j + 1)| > DescriptionLimit
    ensures |Gather(parts, i, acc)| <= |acc| + |Between(parts, i, j + 1)|
    decreases j - i
  {
    var acc' := acc + parts[i];
    var rest := Between(parts, i + 1, j + 1);
    assert |Between(parts, i, j + 1)| == |parts[i]| + |rest|;
    if parts[i] == "" {
      assert Gather(parts, i, acc) == Gather(parts, i + 1, acc);
      if i < j {
        GatherStopsLength(parts, i + 1, acc, j);
      }
    } else if i >= 3 && |acc'| > DescriptionLimit {
      assert Gather(parts, i, acc) == acc';
    } else {
      assert i < j;
      assert Gather(parts, i, acc) == Gather(parts, i + 1, acc');
      GatherStopsLength(parts, i + 1, acc', j);
    }
  }

  /**
   * Gathering stops exactly at the limit: when line `j` is the first
   * non-blank line at index 3 or later that takes the text past 200
   * characters, the gathered text is everything up to and including line `j`.
   */
  lemma {:induction false} GatherExact(parts: seq<string>, i: nat, acc: string, j: nat)
    requires i <= j < |parts| && 3 <= j && parts[j] != ""
    requires |acc| + |Between(parts, i, j + 1)| > DescriptionLimit
    requires forall k :: i <= k < j && 3 <= k && parts[k] != "" ==>
      |acc| + |Between(parts, i, k + 1)| <= DescriptionLimit
    ensures Gather(parts, i, acc) == acc + Between(parts, i, j + 1)
    decreases j - i
  {
    if i == j {
      GatherExactLast(parts, i, acc);
    } else {
      var acc' := acc + parts[i];
      NoEarlierStopStep(parts, i, acc, j);
      GatherTakeEarly(parts, i, acc, j);
      GatherExact(parts, i + 1, acc', j);
      BetweenFront(acc, parts, i, j);
    }
  }

  /**
   * Without a stop, everything is gathered: when no non-blank line at index 3
   * or later takes the text past 200 characters, no line is left out.
   */
  lemma {:induction false} GatherNoStop(parts: seq<string>, i: nat, acc: string)
    requires i <= |parts|
    requires forall k :: i <= k < |parts| && 3 <= k && parts[k] != "" ==>
      |acc| + |Between(parts, i, k + 1)| <= DescriptionLimit
    ensures Gather(parts, i, acc) == acc + Concat(parts, i)
    decreases |parts| - i
  {
    if i < |parts| {
      var acc' := acc + parts[i];
      NoStopStep(parts, i, acc);
      GatherTakeEarly(parts, i, acc, |parts|);
      GatherNoStop(parts, i + 1, acc');
      ConcatStep(parts, i, acc);
    } else {
      assert acc + "" == acc;
    }
  }

  /** With no stop from line `i` on, there is none from the next line on either. */
  lemma NoStopStep(parts: seq<string>, i: nat, acc: string)
    requires i < |parts|
    requires forall k :: i <= k < |parts| && 3 <= k && parts[k] != "" ==>
      |acc| + |Between(parts, i, k + 1)| <= DescriptionLimit
    ensures forall k :: i + 1 <= k < |parts| && 3 <= k && parts[k] != "" ==>
      |acc + parts[i]| + |Between(parts, i + 1, k + 1)| <= DescriptionLimit
  {
    forall k | i + 1 <= k < |parts| && 3 <= k && parts[k] != ""
      ensures |acc + parts[i]| + |Between(parts, i + 1, k + 1)| <= DescriptionLimit
    {
      BetweenStep(parts, i, k);
    }
  }

  /** The line that ends the gathering is the last one taken. */
  lemma GatherExactLast(parts: seq<string>, j: nat, acc: string)
    requires j < |parts| && 3 <= j && parts[j] != ""
    requires |acc| + |Between(parts, j, j + 1)| > DescriptionLimit
    ensures Gather(parts, j, acc) == acc + Between(parts, j, j + 1)
  {
    BetweenStep(parts, j, j);
    assert Between(parts, j + 1, j + 1) == "";
    assert acc + Between(parts, j, j + 1) == acc + parts[j];
  }

  /** With no stop before line `j`, the next line sees no stop before `j` either. */
  lemma NoEarlierStopStep(parts: seq<string>, i: nat, acc: string, j: nat)
    requires i < j < |parts|
    requires |acc| + |Between(parts, i, j + 1)| > DescriptionLimit
    requires forall k :: i <= k < j && 3 <= k && parts[k] != "" ==>
      |acc| + |Between(parts, i, k + 1)| <= DescriptionLimit
    ensures |acc + parts[i]| + |Between(parts, i + 1, j + 1)| > DescriptionLimit
    ensures forall k :: i + 1 <= k < j && 3 <= k && parts[k] != "" ==>
      |acc + parts[i]| + |Between(parts, i + 1, k + 1)| <= DescriptionLimit
  {
    BetweenStep(parts, i, j);
    forall k | i + 1 <= k < j && 3 <= k && parts[k] != ""
      ensures |acc + parts[i]| + |Between(parts, i + 1, k + 1)| <= DescriptionLimit
    {
      BetweenStep(parts, i, k);
    }
  }

  /** A line before the one that ends the gathering is taken. */
  lemma GatherTakeEarly(parts: seq<string>, i: nat, acc: string, j: nat)
    requires i < j <= |parts|
    requires forall k :: i <= k < j && 3 <= k && parts[k] != "" ==>
      |acc| + |Between(parts, i, k + 1)| <= DescriptionLimit
    ensures Gather(parts, i, acc) == Gather(parts, i + 1, acc + parts[i])
  {
    if 3 <= i && parts[i] != "" {
      BetweenStep(parts, i, i);
      assert Between(parts, i + 1, i + 1) == "";
      assert |acc| + |Between(parts, i, i + 1)| <= DescriptionLimit;
    }
    GatherTake(parts, i, acc);
  }

  /** Taking line `i` into the text moves it from the lines still to come. */
  lemma BetweenFront(acc: string, parts: seq<string>, i: nat, j: nat)
    requires i <= j < |parts|
    ensures acc + parts[i] + Between(parts, i + 1, j + 1) == acc + Between(parts, i, j + 1)
  {
    BetweenStep(parts, i, j);
  }

  /** `Between` unfolds one line at a time. */
  lemma BetweenStep(parts: seq<string>, i: nat, k: nat)
    requires i <= k < |parts|
    ensures Between(parts, i, k + 1) == parts[i] + Between(parts, i + 1, k + 1)
  {
  }

  /** A line that does not end the gathering is taken, and gathering goes on. */
  lemma GatherTake(parts: seq<string>, i: nat, acc: string)
    requires i < |parts|
    requires !(parts[i] != "" && i >= 3 && |acc + parts[i]| > DescriptionLimit)
    ensures Gather(parts, i, acc) == Gather(parts, i + 1, acc + parts[i])
  {
    if parts[i] == "" {
      assert acc + parts[i] == acc;
    }
  }

  /** A README of at most four lines is gathered whole, however long its lines are. */
  lemma {:induction false} GatherShort(parts: seq<string>, i: nat, acc: string)
    requires i <= |parts| <= 4
    ensures Gather(parts, i, acc) == acc + Concat(parts, i)
    decreases |parts| - i
  {
    if i < |parts| {
      var acc' := acc + parts[i];
      ConcatStep(parts, i, acc);
      if parts[i] == "" {
        assert acc' == acc;
        GatherShort(parts, i + 1, acc);
      } else if i == 3 {
        assert Concat(parts, i + 1) == "";
        assert acc' + "" == acc';
      } else {
        GatherShort(parts, i + 1, acc');
      }
    }
  }

  /**
   * A heading loses its one leading `#` and the white space after it:
   * `#` and any white space before a text with no white space at its ends,
   * not starting with `>`, give that text.
   */
  lemma CleanLineHeading(ws: string, text: string)
    requires forall m :: 0 <= m < |ws| ==> IsSpace(ws[m])
    requires text != [] && !IsSpace(text[0]) && !IsSpace(text[|text| - 1]) && text[0] != '>'
    ensures CleanLine("#" + ws + text) == text
  {
    var line := "#" + ws + text;
    assert line == "#" + (ws + text);
    assert HasPrefix(line, "#");
    assert TrimPrefix(line, "#") == ws + text;
    TrimSpaceLeading(ws, text);
    assert text[..1] != ">";
    assert !HasPrefix(text, ">");
  }

  /** A quoted line loses its `>` and the white space after it. */
  lemma CleanLineQuote(ws: string, text: string)
    requires forall m :: 0 <= m < |ws| ==> IsSpace(ws[m])
    requires text != [] && !IsSpace(text[0]) && !IsSpace(text[|text| - 1])
    ensures CleanLine(">" + ws + text) == text
  {
    var line := ">" + ws + text;
    assert line == ">" + (ws + text);
    assert line[..1] == ">";
    assert !HasPrefix(line, "#");
    assert HasPrefix(line, ">");
    assert TrimPrefix(line, ">") == ws + text;
    TrimSpaceLeading(ws, text);
  }

  /** Only one `#` goes: a second-level heading keeps its second `#`. */
  lemma CleanLineDoubleHash()
    ensures CleanLine("## Usage") == "# Usage"
  {
    CleanLineHeading("", "# Usage");
    assert "#" + "" + "# Usage" == "## Usage";
  }

  /** Markdown removal on a trimmed line, step by step as the loop does it. */
  method StripMarkup(trimmed: string) returns (line: string)
    ensures line == CleanLine(trimmed)
  {
    line := trimmed;
    if HasPrefix(line, "#") {
      line := TrimSpace(TrimPrefix(line, "#"));
    }
    if HasPrefix(line, ">") {
      line := TrimSpace(TrimPrefix(line, ">"));
    }
  }

  /**
   * The loop body of `GetProjectDescription` for line `i`, up to the limit
   * check: a blank line adds nothing, any other line is cleaned of its
   * markup and written with a trailing space.
   */
  method AppendLine(sb: string, lines: seq<string>, i: nat) returns (sb': string, blank: bool)
    requires i < |lines|
    ensures blank <==> Contributions(lines)[i] == ""
    ensures sb' == sb + Contributions(lines)[i]
  {
    ContributionAt(lines, i);
    var line := TrimSpace(lines[i]);
    if line == "" {
      return sb, true;
    }
    line := StripMarkup(line);
    sb' := sb + line;
    sb' := sb' + " ";
    assert sb + line + " " == sb + (line + " ");
    blank := false;
  }

  /** The per-file loop of `GetProjectDescription` over the lines of one README. */
  method GatherLines(lines: seq<string>) returns (gathered: string)
    ensures gathered == Gather(Contributions(lines), 0, "")
  {
    ghost var parts := Contributions(lines);
    var sb := "";
    var i := 0;
    while i < |lines|
      invariant 0 <= i <= |lines|
      invariant Gather(parts, i, sb) == Gather(parts, 0, "")
    {
      ghost var before := sb;
      var blank;
      sb, blank := AppendLine(sb, lines, i);
      if blank {
        assert sb == before;
        i := i + 1;
        continue;
      }
      if i >= 3 && |sb| > DescriptionLimit {
        break;
      }
      i := i + 1;
    }
    gathered := sb;
  }

  /** The description of one README text. */
  method ExtractDescription(content: string) returns (description: string)
    ensures description == Description(content)
  {
    var lines := Split(content, '\n');
    var gathered := GatherLines(lines);
    description := TrimSpace(gathered);
  }

  /** What each candidate yields: its description when it exists, else nothing. */
  function Yields(files: map<string, string>, names: seq<string>): (texts: seq<string>)
    ensures |texts| == |names|
    ensures forall k :: 0 <= k < |names| ==>
      texts[k] == if names[k] in files then Description(files[names[k]]) else ""
  {
    seq(|names|, k requires 0 <= k < |names| => if names[k] in files then Description(files[names[k]]) else "")
  }

  /** The first non-empty text, or empty when there is none. */
  function FirstNonEmpty(texts: seq<string>): string {
    if texts == [] then "" else if texts[0] != "" then texts[0] else FirstNonEmpty(texts[1..])
  }

  /** `GetProjectDescription`; `files` maps each README that exists and can be read to its text. */
  method GetProjectDescription(files: map<string, string>) returns (description: string)
    ensures description == FirstNonEmpty(Yields(files, ReadmeCandidates))
  {
    var names := ReadmeCandidates;
    ghost var texts := Yields(files, names);
    for k := 0 to |names|
      invariant FirstNonEmpty(texts[k..]) == FirstNonEmpty(texts)
    {
      assert texts[k..][1..] == texts[k + 1..];
      var readme := names[k];
      if readme in files {
        var result := ExtractDescription(files[readme]);
        if |result| > 0 {
          return result;
        }
      }
    }
    assert texts[|names|..] == [];
    return "";
  }

  /** The result is empty exactly when every text is. */
  lemma {:induction false} FirstNonEmptyEmpty(texts: seq<string>)
    ensures FirstNonEmpty(texts) == "" <==> forall k :: 0 <= k < |texts| ==> texts[k] == ""
  {
    if texts != [] {
      FirstNonEmptyEmpty(texts[1..]);
      assert forall k :: 1 <= k < |texts| ==> texts[k] == texts[1..][k - 1];
    }
  }

  /** A non-empty result is the text at some index all of whose predecessors are empty. */
  lemma {:induction false} FirstNonEmptyFirst(texts: seq<string>)
    requires FirstNonEmpty(texts) != ""
    ensures exists k :: 0 <= k < |texts| && FirstNonEmpty(texts) == texts[k] && (forall j :: 0 <= j < k ==> texts[j] == "")
  {
    if texts[0] == "" {
      FirstNonEmptyFirst(texts[1..]);
      var k :| 0 <= k < |texts[1..]| && FirstNonEmpty(texts[1..]) == texts[1..][k]
        && (forall j :: 0 <= j < k ==> texts[1..][j] == "");
      assert forall j :: 1 <= j < k + 1 ==> texts[j] == texts[1..][j - 1];
      assert texts[k + 1] == texts[1..][k];
    }
  }
}
