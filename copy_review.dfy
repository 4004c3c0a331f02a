/** The copywriting review (`copy-review.ts`): the text report of a review,
    the results `reviewContent` and `reviewFile` fall back to, and the
    choice of files `--drafts` reviews. */
module CopyReview {
  import opened Wrappers
  import opened JsString
  import opened Files
  import Pipeline
  import ReviewQueue

  /** One finding of a review; `kind` is its `type` field ("error",
      "warning" or "suggestion" in a well-formed reply). */
  datatype Issue = Issue(kind: string, description: string, location: Option<string>)

  /** `ReviewResult`: the score (0-100 by convention), the verdict, the
      findings, the suggestions and an optional rewrite. */
  datatype ReviewResult = ReviewResult(score: int, passed: bool, issues: seq<Issue>,
                                       suggestions: seq<string>, rewritten: Option<string>)

  // ---------------------------------------------------------------------
  // `formatReviewResults`

  /** `'='.repeat(60)`. */
  function Bar(): (b: string)
    ensures |b| == 60 && forall i :: 0 <= i < |b| ==> b[i] == '='
  {
    seq(60, _ => '=')
  }

  /** The word after the score. */
  function ScoreLabel(score: int): (word: string)
    ensures word == "EXCELLENT" <==> score >= 80
    ensures word == "PASSED" <==> 70 <= score < 80
    ensures word == "NEEDS WORK" <==> score < 70
  {
    if score >= 80 then "EXCELLENT" else if score >= 70 then "PASSED" else "NEEDS WORK"
  }

  function StatusText(passed: bool): string {
    if passed then "Ready for publishing" else "Revision needed"
  }

  // The report's fixed lines, each with the first characters the lemmas
  // below tell them apart by.

  function TopBar(): (l: string)
    ensures |l| > 0 && l[0] == '\n'
  {
    "\n" + Bar()
  }

  function TitleLine(filename: string): (l: string)
    ensures |l| > 0 && l[0] == 'C'
  {
    "COPYWRITING REVIEW: " + filename
  }

  function ScoreLine(score: int): (l: string)
    ensures |l| > 1 && l[0] == 'S' && l[1] == 'c'
  {
    "Score: " + IntToString(score) + "/100 (" + ScoreLabel(score) + ")"
  }

  function StatusLine(passed: bool): (l: string)
    ensures |l| > 1 && l[0] == 'S' && l[1] == 't'
    ensures |l| == if passed then 28 else 23
  {
    "Status: " + StatusText(passed)
  }

  /** The marker in front of an issue. */
  function Icon(kind: string): (icon: string)
    ensures icon == "X" <==> kind == "error"
    ensures icon == "!" <==> kind == "warning"
    ensures icon == "-" <==> kind != "error" && kind != "warning"
  {
    if kind == "error" then "X" else if kind == "warning" then "!" else "-"
  }

  /** `if (issue.location)`: an absent or empty location is not shown. */
  predicate HasLocation(issue: Issue) {
    issue.location.Some? && issue.location.value != ""
  }

  function LocationLine(location: string): (l: string)
    ensures IsLocationLine(l) && |l| > 2 && l[0] == ' ' && l[1] == ' '
  {
    "      Location: \"" + location + "\""
  }

  function IssueLine(issue: Issue): (l: string)
    ensures |l| > 2 && l[0] == ' ' && l[1] == ' ' && l[2] == '['
  {
    "  [" + Icon(issue.kind) + "] " + issue.description
  }

  /** The lines printed for one issue. */
  function IssueLines(issue: Issue): seq<string> {
    [IssueLine(issue)] + (if HasLocation(issue) then [LocationLine(issue.location.value)] else [])
  }

  function SuggestionLine(suggestion: string): (l: string)
    ensures |l| > 3 && l[0] == ' ' && l[1] == ' ' && l[2] == '-'
  {
    "  - " + suggestion
  }

  function SuggestionLines(suggestions: seq<string>): seq<string> {
    if suggestions == [] then []
    else SuggestionLines(suggestions[..|suggestions| - 1]) + [SuggestionLine(suggestions[|suggestions| - 1])]
  }

  /** The banner, the score and the status, each block closed by a blank line. */
  function HeadLines(result: ReviewResult, filename: string): seq<string> {
    [TopBar(), TitleLine(filename), Bar(), "", ScoreLine(result.score), StatusLine(result.passed), ""]
  }

  function IssueSection(issues: seq<Issue>): seq<string> {
    if issues == [] then [] else ["Issues Found:"] + FlatMap(issues, IssueLines) + [""]
  }

  function SuggestionSection(suggestions: seq<string>): seq<string> {
    if suggestions == [] then [] else ["Suggestions:"] + SuggestionLines(suggestions) + [""]
  }

  /** Every line of the report, before they are joined with newlines. */
  function ReportLines(result: ReviewResult, filename: string): seq<string> {
    HeadLines(result, filename) + (IssueSection(result.issues)
    + (SuggestionSection(result.suggestions) + [Bar()]))
  }

  /** `formatReviewResults(result, filename)`: pushes the lines one by one
      and joins them. */
  method FormatReviewResults(result: ReviewResult, filename: string) returns (text: string)
    ensures text == Join(ReportLines(result, filename), "\n")
  {
    var head := [TopBar(), TitleLine(filename), Bar(), "", ScoreLine(result.score), StatusLine(result.passed), ""];
    var issueLines := PushIssues(result.issues);
    var suggestionLines := PushSuggestions(result.suggestions);
    var lines := head + (issueLines + (suggestionLines + [Bar()]));
    text := Join(lines, "\n");
  }

  /** The issues block of `formatReviewResults`: nothing without issues. */
  method PushIssues(issues: seq<Issue>) returns (lines: seq<string>)
    ensures lines == IssueSection(issues)
  {
    lines := [];
    if |issues| > 0 {
      var body := PushIssueLines(issues);
      lines := ["Issues Found:"] + body + [""];
    }
  }

  /** The loop of the issues block: each issue's line, then its location
      line when it has one. */
  method PushIssueLines(issues: seq<Issue>) returns (lines: seq<string>)
    ensures lines == FlatMap(issues, IssueLines)
  {
    lines := [];
    var i := 0;
    while i < |issues|
      invariant 0 <= i <= |issues|
      invariant lines == FlatMap(issues[..i], IssueLines)
    {
      var issue := issues[i];
      IssuesPrefixSnoc(issues, i);
      lines := lines + [IssueLine(issue)];
      if issue.location.Some? && issue.location.value != "" {
        lines := lines + [LocationLine(issue.location.value)];
      }
      i := i + 1;
    }
    assert issues[..i] == issues;
  }

  lemma IssuesPrefixSnoc(issues: seq<Issue>, i: nat)
    requires i < |issues|
    ensures FlatMap(issues[..i + 1], IssueLines) == FlatMap(issues[..i], IssueLines) + [IssueLine(issues[i])]
      + (if HasLocation(issues[i]) then [LocationLine(issues[i].location.value)] else [])
  {
    assert issues[..i + 1] == issues[..i] + [issues[i]];
    FlatMapSnoc(issues[..i], issues[i], IssueLines);
  }

  /** The suggestions block of `formatReviewResults`: nothing without suggestions. */
  method PushSuggestions(suggestions: seq<string>) returns (lines: seq<string>)
    ensures lines == SuggestionSection(suggestions)
  {
    lines := [];
    if |suggestions| > 0 {
      lines := lines + ["Suggestions:"];
      var i := 0;
      while i < |suggestions|
        invariant 0 <= i <= |suggestions|
        invariant lines == ["Suggestions:"] + SuggestionLines(suggestions[..i])
      {
        assert suggestions[..i + 1][..i] == suggestions[..i];
        lines := lines + [SuggestionLine(suggestions[i])];
        i := i + 1;
      }
      assert suggestions[..i] == suggestions;
      lines := lines + [""];
    }
  }

  /** The joined text opens with its first line. */
  lemma JoinStartsWithFirst(parts: seq<string>, sep: string)
    requires parts != []
    ensures StartsWith(Join(parts, sep), parts[0])
  {
  }

  /** The joined text ends with its last line. */
  lemma {:induction false} JoinEndsWithLast(parts: seq<string>, sep: string)
    requires parts != []
    ensures EndsWith(Join(parts, sep), parts[|parts| - 1])
    decreases |parts|
  {
    if |parts| > 1 {
      JoinEndsWithLast(parts[1..], sep);
      var rest := Join(parts[1..], sep);
      var last := parts[|parts| - 1];
      assert Join(parts, sep) == (parts[0] + sep) + rest;
      assert rest[|rest| - |last|..] == last;
      assert (parts[0] + sep + rest)[|parts[0] + sep + rest| - |last|..] == rest[|rest| - |last|..];
    }
  }

  /** The report opens with a newline and sixty `=`, and closes with sixty `=`. */
  lemma ReportFraming(result: ReviewResult, filename: string)
    ensures var text := Join(ReportLines(result, filename), "\n");
      StartsWith(text, "\n" + Bar()) && EndsWith(text, Bar())
  {
    var lines := ReportLines(result, filename);
    JoinStartsWithFirst(lines, "\n");
    JoinEndsWithLast(lines, "\n");
  }

  /** The status line (the sixth) is decided by `passed` alone: two results
      print the same status line exactly when they agree on `passed`,
      whatever their scores. */
  lemma StatusFollowsPassed(r1: ReviewResult, r2: ReviewResult, filename: string)
    ensures ReportLines(r1, filename)[5] == ReportLines(r2, filename)[5] <==> r1.passed == r2.passed
  {
    assert ReportLines(r1, filename)[5] == StatusLine(r1.passed);
    assert ReportLines(r2, filename)[5] == StatusLine(r2.passed);
  }

  /** Issue lines are indented by two spaces. */
  lemma {:induction false} IndentedIssues(issues: seq<Issue>)
    ensures forall l :: l in FlatMap(issues, IssueLines) ==> |l| > 2 && l[0] == ' ' && l[1] == ' '
    decreases |issues|
  {
    if issues != [] {
      IndentedIssues(issues[..|issues| - 1]);
    }
  }

  /** Suggestion lines are indented by two spaces. */
  lemma {:induction false} IndentedSuggestions(suggestions: seq<string>)
    ensures forall l :: l in SuggestionLines(suggestions) ==> |l| > 2 && l[0] == ' ' && l[1] == ' ' && l[2] == '-'
    decreases |suggestions|
  {
    if suggestions != [] {
      IndentedSuggestions(suggestions[..|suggestions| - 1]);
    }
  }

  /** None of the head lines is a section title or a location line. */
  lemma HeadIsPlain(result: ReviewResult, filename: string)
    ensures forall l :: l in HeadLines(result, filename) ==>
      l != "Issues Found:" && l != "Suggestions:" && !IsLocationLine(l)
  {
    assert Bar()[0] == '=';
    assert "Issues Found:"[0] == 'I' && "Suggestions:"[1] == 'u';
  }

  /** The issues block is there exactly when there are issues. */
  lemma IssuesWhenNonEmpty(result: ReviewResult, filename: string)
    ensures "Issues Found:" in ReportLines(result, filename) <==> result.issues != []
  {
    var t := "Issues Found:";
    var lines := ReportLines(result, filename);
    if result.issues != [] {
      assert lines[7] == t;
    } else {
      forall l | l in lines
        ensures l != t
      {
        if l in HeadLines(result, filename) {
          HeadIsPlain(result, filename);
        } else if l in SuggestionLines(result.suggestions) {
          IndentedSuggestions(result.suggestions);
          assert t[0] != ' ';
        }
      }
    }
  }

  /** The suggestions block is there exactly when there are suggestions. */
  lemma SuggestionsWhenNonEmpty(result: ReviewResult, filename: string)
    ensures "Suggestions:" in ReportLines(result, filename) <==> result.suggestions != []
  {
    var t := "Suggestions:";
    var lines := ReportLines(result, filename);
    if result.suggestions != [] {
      assert lines[7 + |IssueSection(result.issues)|] == t;
    } else {
      forall l | l in lines
        ensures l != t
      {
        if l in HeadLines(result, filename) {
          HeadIsPlain(result, filename);
        } else if l in FlatMap(result.issues, IssueLines) {
          IndentedIssues(result.issues);
          assert t[0] != ' ';
        }
      }
    }
  }

  // Counting the `Location:` lines

  predicate IsLocationLine(line: string) {
    StartsWith(line, "      Location: ")
  }

  function LocationCount(lines: seq<string>): nat {
    if lines == [] then 0
    else LocationCount(lines[..|lines| - 1]) + (if IsLocationLine(lines[|lines| - 1]) then 1 else 0)
  }

  function Located(issues: seq<Issue>): nat {
    if issues == [] then 0
    else Located(issues[..|issues| - 1]) + (if HasLocation(issues[|issues| - 1]) then 1 else 0)
  }

  lemma {:induction false} LocationCountAppend(a: seq<string>, b: seq<string>)
    ensures LocationCount(a + b) == LocationCount(a) + LocationCount(b)
    decreases |b|
  {
    if b == [] {
      assert a + b == a;
    } else {
      LocationCountAppend(a, b[..|b| - 1]);
      assert (a + b)[..|a + b| - 1] == a + b[..|b| - 1];
    }
  }

  lemma {:induction false} LocationsOfIssues(issues: seq<Issue>)
    ensures LocationCount(FlatMap(issues, IssueLines)) == Located(issues)
    decreases |issues|
  {
    if issues != [] {
      var init, last := issues[..|issues| - 1], issues[|issues| - 1];
      LocationsOfIssues(init);
      LocationCountAppend(FlatMap(init, IssueLines), IssueLines(last));
      var first := IssueLine(last);
      assert !IsLocationLine(first);
      if HasLocation(last) {
        LocationCountAppend([first], [LocationLine(last.location.value)]);
      }
    }
  }

  lemma {:induction false} NoLocationIn(lines: seq<string>)
    requires forall l :: l in lines ==> !IsLocationLine(l)
    ensures LocationCount(lines) == 0
    decreases |lines|
  {
    if lines != [] {
      NoLocationIn(lines[..|lines| - 1]);
    }
  }

  lemma HeadLocations(result: ReviewResult, filename: string)
    ensures LocationCount(HeadLines(result, filename)) == 0
  {
    HeadIsPlain(result, filename);
    NoLocationIn(HeadLines(result, filename));
  }

  lemma IssueSectionLocations(issues: seq<Issue>)
    ensures LocationCount(IssueSection(issues)) == Located(issues)
  {
    if issues != [] {
      LocationsOfIssues(issues);
      LocationCountAppend(["Issues Found:"], FlatMap(issues, IssueLines));
      LocationCountAppend(["Issues Found:"] + FlatMap(issues, IssueLines), [""]);
    }
  }

  lemma TailLocations(suggestions: seq<string>)
    ensures LocationCount(SuggestionSection(suggestions) + [Bar()]) == 0
  {
    var rest := SuggestionSection(suggestions) + [Bar()];
    forall l | l in rest
      ensures !IsLocationLine(l)
    {
      if l in SuggestionLines(suggestions) {
        IndentedSuggestions(suggestions);
      } else if l == Bar() {
        assert Bar()[0] == '=';
      }
    }
    NoLocationIn(rest);
  }

  /** The report shows one `Location:` line per issue that has a location,
      and no other. */
  lemma LocationLineCount(result: ReviewResult, filename: string)
    ensures LocationCount(ReportLines(result, filename)) == Located(result.issues)
  {
    var head := HeadLines(result, filename);
    var issues := IssueSection(result.issues);
    var rest := SuggestionSection(result.suggestions) + [Bar()];
    HeadLocations(result, filename);
    IssueSectionLocations(result.issues);
    TailLocations(result.suggestions);
    LocationCountAppend(issues, rest);
    LocationCountAppend(head, issues + rest);
  }

  // ---------------------------------------------------------------------
  // `reviewContent` and `reviewFile`

  /** `process.env.GROK_API_KEY || process.env.XAI_API_KEY`, read as
      `if (!apiKey)` reads it: an unset or empty variable gives no key. */
  function ApiKey(grok: Option<string>, xai: Option<string>): (key: Option<string>)
    ensures key.Some? <==> (grok.Some? && grok.value != "") || (xai.Some? && xai.value != "")
    ensures key.Some? ==> key.value != "" && (key == grok || key == xai)
    ensures grok.Some? && grok.value != "" ==> key == grok
  {
    if grok.Some? && grok.value != "" then grok
    else if xai.Some? && xai.value != "" then xai
    else None
  }

  /** A result that `reviewContent` and `reviewFile` make up themselves:
      score 0, not passed, one error. */
  function Fallback(description: string, suggestions: seq<string>): ReviewResult {
    ReviewResult(0, false, [Issue("error", description, None)], suggestions, None)
  }

  predicate IsFallback(r: ReviewResult) {
    r.score == 0 && !r.passed && |r.issues| == 1 && r.issues[0].kind == "error"
    && r.issues[0].location.None? && r.rewritten.None?
  }

  function NoKeyResult(): ReviewResult {
    Fallback("GROK_API_KEY required for copy review", ["Add GROK_API_KEY to .env.local"])
  }

  function NotFoundResult(): ReviewResult {
    Fallback("File not found", [])
  }

  /** The `catch` branch of `reviewContent`: `Review failed: ${error}`. */
  function ReviewFailed(error: string): (r: ReviewResult)
    ensures IsFallback(r) && r.suggestions == [] && StartsWith(r.issues[0].description, "Review failed: ")
  {
    Fallback("Review failed: " + error, [])
  }

  /** What `JSON.parse` makes of the extracted text: a result (taken as a
      `ReviewResult` without checking) or a syntax error with its message. */
  datatype JsonReading = Parsed(result: ReviewResult) | SyntaxError(message: string)

  /** `${error}` for the error the backend throws. */
  function GenErrorText(e: Pipeline.GenError): string {
    match e
    case MissingApiKey => "Error: GROK_API_KEY or XAI_API_KEY environment variable is required"
    case HttpStatus(code) => "Error: Grok API error (" + IntToString(code) + ")"
    case NoChoices => "Error: No response from Grok API"
  }

  /** The first index of `c` at or after `from`, or `|s|`. */
  function FirstOf(s: string, c: char, from: nat): (k: nat)
    requires from <= |s|
    ensures from <= k <= |s| && (k < |s| ==> s[k] == c)
    ensures forall j :: from <= j < k ==> s[j] != c
    decreases |s| - from
  {
    if from == |s| || s[from] == c then from else FirstOf(s, c, from + 1)
  }

  /** One past the last index of `c` in `s[..to]`, or 0. */
  function LastOf(s: string, c: char, to: nat): (k: nat)
    requires to <= |s|
    ensures k <= to && (k > 0 ==> s[k - 1] == c)
    ensures forall j :: k <= j < to ==> s[j] != c
  {
    if to == 0 || s[to - 1] == c then to else LastOf(s, c, to - 1)
  }

  /** `text.match(/\{[\s\S]*\}/)`: the leftmost `{` that some `}` follows,
      through the last `}`; `None` when no `}` follows any `{`. */
  function JsonSpan(text: string): (span: Option<string>)
    ensures span.None? <==> forall a, b :: 0 <= a < b < |text| && text[a] == '{' ==> text[b] != '}'
    ensures span.Some? ==> exists a, b :: (0 <= a < b < |text| && span.value == text[a..b + 1]
      && text[a] == '{' && text[b] == '}' && '{' !in text[..a] && '}' !in text[b + 1..])
  {
    var a := FirstOf(text, '{', 0);
    var end := LastOf(text, '}', |text|);
    if a < |text| && a + 1 < end then
      assert '{' !in text[..a] && '}' !in text[end..];
      Some(text[a..end])
    else
      assert forall x, y :: 0 <= x < y < |text| && text[x] == '{' ==> text[y] != '}' by {
        forall x, y | 0 <= x < y < |text| && text[x] == '{'
          ensures text[y] != '}'
        {
          assert a <= x;
        }
      }
      None
  }

  /** `reviewContent(content)`: `key` is the resolved API key, `template`
      the review prompt, `ask` the backend and `parse` `JSON.parse`. */
  function ReviewContent(content: string, key: Option<string>, template: string,
                         ask: string -> Pipeline.Reply, parse: string -> JsonReading): ReviewResult
  {
    if key.None? then NoKeyResult()
    else
      var reply := ask(ReplaceFirst(template, "{CONTENT}", content));
      if reply.Failure? then ReviewFailed(GenErrorText(reply.error))
      else
        match JsonSpan(reply.text)
        case None => ReviewFailed("Error: Could not parse review response")
        case Some(json) =>
          match parse(json)
          case SyntaxError(message) => ReviewFailed("SyntaxError: " + message)
          case Parsed(result) => result
  }

  /** Without a key the backend is never asked: the result is the same
      whatever it would answer, a zero-score failure with one error. */
  lemma NoKeyNeverAsks(content: string, template: string, ask1: string -> Pipeline.Reply,
                       ask2: string -> Pipeline.Reply, parse: string -> JsonReading)
    ensures ReviewContent(content, None, template, ask1, parse) == ReviewContent(content, None, template, ask2, parse)
    ensures var r := ReviewContent(content, None, template, ask1, parse);
      IsFallback(r) && r.issues[0].description == "GROK_API_KEY required for copy review"
  {
  }

  /** With a key, the reply's own result is returned when the backend answers
      with parsable JSON; every other path is a zero-score failure whose one
      error says `Review failed: …` and carries no suggestions. */
  lemma ReviewOutcomes(content: string, key: string, template: string,
                       ask: string -> Pipeline.Reply, parse: string -> JsonReading)
    ensures var reply := ask(ReplaceFirst(template, "{CONTENT}", content));
      var r := ReviewContent(content, Some(key), template, ask, parse);
      if reply.Text? && JsonSpan(reply.text).Some? && parse(JsonSpan(reply.text).value).Parsed? then
        r == parse(JsonSpan(reply.text).value).result
      else
        IsFallback(r) && r.suggestions == [] && StartsWith(r.issues[0].description, "Review failed: ")
  {
  }

  /** `reviewFile(path)`, with `file` the text at `path` when it exists. */
  function ReviewFile(file: Option<string>, key: Option<string>, template: string,
                      ask: string -> Pipeline.Reply, parse: string -> JsonReading): (r: ReviewResult)
    ensures file.None? ==> IsFallback(r) && r.issues[0].description == "File not found" && r.suggestions == []
    ensures file.Some? ==> r == ReviewContent(file.value, key, template, ask, parse)
  {
    if file.None? then NotFoundResult() else ReviewContent(file.value, key, template, ask, parse)
  }

  // ---------------------------------------------------------------------
  // `--drafts`

  /** The literal draft markers `main` looks for; other spellings of the
      status (`status: draft`, `status: review`) are not reviewed. */
  predicate IsDraftText(content: string) {
    Contains(content, "status: \"draft\"") || Contains(content, "status: 'draft'")
  }

  /** Either quoting of the draft status anywhere in the file selects it. */
  lemma DraftMarkerSelects(before: string, after: string)
    ensures IsDraftText(before + "status: \"draft\"" + after)
    ensures IsDraftText(before + "status: 'draft'" + after)
  {
    var p, q := "status: \"draft\"", "status: 'draft'";
    assert OccursAt(p, p, 0) && OccursAt(q, q, 0);
    ContainsAppendRight(p, after, p);
    ContainsAppendLeft(before, p + after, p);
    assert before + p + after == before + (p + after);
    ContainsAppendRight(q, after, q);
    ContainsAppendLeft(before, q + after, q);
    assert before + q + after == before + (q + after);
  }

  /** The `.mdx` files of the listing that carry a draft marker, in listing order. */
  function DraftFiles(blog: Dir, files: seq<string>): (r: seq<string>)
    requires forall f :: f in files ==> f in blog
    ensures forall f :: f in r <==> f in files && IsDraftText(blog[f])
  {
    if files == [] then []
    else
      var f := files[|files| - 1];
      DraftFiles(blog, files[..|files| - 1]) + (if IsDraftText(blog[f]) then [f] else [])
  }

  /** The reports `--drafts` prints, one per selected file, in order. */
  function DraftReports(blog: Dir, files: seq<string>, key: Option<string>, template: string,
                        ask: string -> Pipeline.Reply, parse: string -> JsonReading): seq<string>
    requires forall f :: f in files ==> f in blog
  {
    if files == [] then []
    else
      var f := files[|files| - 1];
      DraftReports(blog, files[..|files| - 1], key, template, ask, parse)
      + if IsDraftText(blog[f]) then
          [Join(ReportLines(ReviewFile(Some(blog[f]), key, template, ask, parse), f), "\n")]
        else []
  }

  /** One report per draft file. */
  lemma {:induction false} OneReportPerDraft(blog: Dir, files: seq<string>, key: Option<string>, template: string,
                                             ask: string -> Pipeline.Reply, parse: string -> JsonReading)
    requires forall f :: f in files ==> f in blog
    ensures |DraftReports(blog, files, key, template, ask, parse)| == |DraftFiles(blog, files)|
    decreases |files|
  {
    if files != [] {
      OneReportPerDraft(blog, files[..|files| - 1], key, template, ask, parse);
    }
  }

  /** The `--drafts` loop over `content/blog/` (`None` when the folder is
      missing, which prints a notice and reviews nothing), listed by
      `listing`: the printed reports. */
  method ReviewDrafts(blog: Option<Dir>, listing: seq<string>, key: Option<string>, template: string,
                      ask: string -> Pipeline.Reply, parse: string -> JsonReading)
    returns (reports: seq<string>)
    requires blog.Some? ==> IsListing(listing, blog.value)
    ensures blog.None? ==> reports == []
    ensures blog.Some? ==> reports == DraftReports(blog.value, ReviewQueue.MdxFiles(listing), key, template, ask, parse)
  {
    reports := [];
    if blog.None? {
      return;
    }
    reports := ReviewDraftFiles(blog.value, ReviewQueue.MdxFiles(listing), key, template, ask, parse);
  }

  /** The loop of `--drafts` over the `.mdx` files: a report for each one
      holding a draft marker. */
  method ReviewDraftFiles(dir: Dir, files: seq<string>, key: Option<string>, template: string,
                          ask: string -> Pipeline.Reply, parse: string -> JsonReading)
    returns (reports: seq<string>)
    requires forall f :: f in files ==> f in dir
    ensures reports == DraftReports(dir, files, key, template, ask, parse)
  {
    reports := [];
    var i := 0;
    while i < |files|
      invariant 0 <= i <= |files|
      invariant reports == DraftReports(dir, files[..i], key, template, ask, parse)
    {
      DraftReportsSnoc(dir, files, i, key, template, ask, parse);
      var file := files[i];
      var content := dir[file];
      if IsDraftText(content) {
        var result := ReviewFile(Some(content), key, template, ask, parse);
        var text := FormatReviewResults(result, file);
        reports := reports + [text];
      }
      i := i + 1;
    }
    assert files[..i] == files;
  }

  lemma DraftReportsSnoc(dir: Dir, files: seq<string>, i: nat, key: Option<string>, template: string,
                         ask: string -> Pipeline.Reply, parse: string -> JsonReading)
    requires i < |files| && forall f :: f in files ==> f in dir
    ensures DraftReports(dir, files[..i + 1], key, template, ask, parse)
      == DraftReports(dir, files[..i], key, template, ask, parse)
      + if IsDraftText(dir[files[i]]) then
          [Join(ReportLines(ReviewFile(Some(dir[files[i]]), key, template, ask, parse), files[i]), "\n")]
        else []
  {
    assert files[..i + 1][..i] == files[..i];
  }

  /** The files `--drafts` reviews are exactly the listed `.mdx` files
      holding a draft marker. */
  lemma DraftSelection(blog: Dir, listing: seq<string>, f: string)
    requires IsListing(listing, blog)
    ensures f in DraftFiles(blog, ReviewQueue.MdxFiles(listing))
        <==> f in blog && EndsWith(f, ".mdx") && IsDraftText(blog[f])
  {
  }
}
