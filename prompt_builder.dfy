/**
 * The review prompt: fixed instructions, then the retrieved rules rendered
 * one section each, then the file diffs rendered one section each.
 *
 * A metadata value is text or a whole number; rendering one writes it as
 * text, and joining one as a list of strings fails for a number, as
 * `', '.join` does.
 */
module PromptBuilder {
  import opened Wrappers
  import opened Text
  import opened Models

  /** The language model's standing instructions, word for word. */
  const SystemPrompt: string := @"You are a senior code reviewer with deep expertise in software engineering best practices.

Your role is to review code changes and provide constructive feedback based ONLY on the specific rules provided to you.

**Critical Constraints:**
1. Apply ONLY the rules explicitly provided in the context below
2. Do not invent or assume rules that are not provided
3. Be professional and concise - no lecturing or condescending tone
4. Focus on actionable feedback

**Severity Levels:**
- **High**: Critical issues that must be fixed (security, data integrity, breaking changes)
- **Medium**: Important issues that should be addressed (best practices, maintainability)
- **Low**: Suggestions for improvement (style, optimization, readability)

**Input Format:**
The code changes are provided in a unified diff format.
Each line of code is prefixed with its line number in the file (e.g., ""10: +    some code"").
Use these explicit line numbers for your findings.

**Output Format:**
Return a JSON array of findings. Each finding must have:
- file: relative file path
- line: line number (integer) from the provided diff
- code_snippet: the exact line of code identified (string)
- severity: ""High"", ""Medium"", or ""Low""
- rule: brief description of the violated rule
- suggestion: specific, actionable suggestion for fixing the issue
- category: rule category (if available)

If no issues are found, return an empty array: []
"

  const NoRulesText: string := "No specific rules provided. Perform a general code review."
  const SectionSeparator: string := "\n\n---\n\n"
  const ContextHeading: string := "\n\n## Context: Applicable Rules\n\n"
  const InputHeading: string := "\n\n## Input: Code Changes to Review\n\n"
  const TaskSection: string := "\n\n## Task\n\nReview the code changes above and identify any violations of the provided rules.\nReturn your findings as a JSON array following the specified format.\n"

  /** A metadata lookup: `metadata.get(key)`. */
  function Get(md: Metadata, key: string): (v: Option<MetaValue>)
    ensures v.Some? <==> key in md
    ensures v.Some? ==> v.value == md[key]
  {
    if key in md then Some(md[key]) else None
  }

  /** Python truthiness of a looked-up value: absent, `""` and `0` are false. */
  predicate Truthy(v: Option<MetaValue>) {
    match v
    case None => false
    case Some(MStr(s)) => s != ""
    case Some(MInt(i)) => i != 0
  }

  /** A value as an f-string writes it. */
  function Render(v: MetaValue): string {
    match v
    case MStr(s) => s
    case MInt(i) => IntToString(i)
  }

  /** The one-character strings of `s`: iterating over a string. */
  function Chars(s: string): (cs: seq<string>)
    ensures |cs| == |s| && forall k :: 0 <= k < |s| ==> cs[k] == [s[k]]
  {
    seq(|s|, k requires 0 <= k < |s| => [s[k]])
  }

  /** `', '.join(value)`: a string is joined character by character; a number is not iterable. */
  function JoinItems(v: MetaValue): (r: Result<string, string>)
    ensures r.Failure? <==> v.MInt?
    ensures v.MStr? ==> r == Success(Join(Chars(v.s), ", "))
  {
    match v
    case MStr(s) => Success(Join(Chars(s), ", "))
    case MInt(_) => Failure("TypeError: can only join an iterable")
  }

  /**
   * Joining a string's characters puts `", "` between every two of them:
   * character k of the string lands at position 3k.
   */
  lemma {:induction false} JoinCharsInterleaves(s: string)
    requires |s| > 0
    ensures |Join(Chars(s), ", ")| == 3 * |s| - 2
    ensures forall k :: 0 <= k < |s| ==> Join(Chars(s), ", ")[3 * k] == s[k]
    ensures forall k :: 0 <= k < |s| - 1 ==> Join(Chars(s), ", ")[3 * k + 1..3 * k + 3] == ", "
    decreases |s|
  {
    var j := Join(Chars(s), ", ");
    if |s| > 1 {
      JoinCharsInterleaves(s[1..]);
      assert Chars(s)[1..] == Chars(s[1..]);
      var rest := Join(Chars(s[1..]), ", ");
      assert j == [s[0]] + ", " + rest;
      forall k | 1 <= k < |s|
        ensures j[3 * k] == s[k]
      {
        assert j[3 * k] == rest[3 * (k - 1)];
      }
      forall k | 1 <= k < |s| - 1
        ensures j[3 * k + 1..3 * k + 3] == ", "
      {
        assert j[3 * k + 1..3 * k + 3] == rest[3 * (k - 1) + 1..3 * (k - 1) + 3];
      }
    }
  }

  /** `### Rule i`, with ` (category)` only when the category is truthy. */
  function RuleHeading(i: nat, md: Metadata): (h: string)
    ensures Truthy(Get(md, "category")) ==> h == "### Rule " + NatToString(i) + " (" + Render(md["category"]) + ")"
    ensures !Truthy(Get(md, "category")) ==> h == "### Rule " + NatToString(i)
  {
    "### Rule " + NatToString(i)
    + (if Truthy(Get(md, "category")) then " (" + Render(md["category"]) + ")" else "")
  }

  /** The severity line, present only when the severity is truthy. */
  function SeverityLine(md: Metadata): (line: string)
    ensures line != "" <==> Truthy(Get(md, "severity"))
  {
    if Truthy(Get(md, "severity")) then "**Severity**: " + Render(md["severity"]) + "\n\n" else ""
  }

  /** One rule's section; it fails only when `applies_to` is a (non-zero) number. */
  function RenderRule(i: nat, rc: RuleChunk): (r: Result<string, string>)
    ensures r.Failure? <==> Truthy(Get(rc.chunk.metadata, "applies_to")) && rc.chunk.metadata["applies_to"].MInt?
  {
    var md := rc.chunk.metadata;
    var head := RuleHeading(i, md) + "\n\n" + SeverityLine(md);
    if Truthy(Get(md, "applies_to")) then
      match JoinItems(md["applies_to"])
      case Failure(e) => Failure(e)
      case Success(appliesTo) => Success(head + "**Applies to**: " + appliesTo + "\n\n" + rc.chunk.content)
    else Success(head + rc.chunk.content)
  }

  /** A rendered rule opens with its heading and ends with the rule text. */
  lemma RuleSectionShape(i: nat, rc: RuleChunk)
    requires RenderRule(i, rc).Success?
    ensures StartsWith(RenderRule(i, rc).value, RuleHeading(i, rc.chunk.metadata) + "\n\n" + SeverityLine(rc.chunk.metadata))
    ensures EndsWith(RenderRule(i, rc).value, rc.chunk.content)
  {
    var md := rc.chunk.metadata;
    var head := RuleHeading(i, md) + "\n\n" + SeverityLine(md);
    var sec := RenderRule(i, rc).value;
    assert sec[..|head|] == head;
    assert sec[|sec| - |rc.chunk.content|..] == rc.chunk.content;
  }

  /** The sections of `rules`, numbered from 1 in order, or the first failure. */
  function RuleSections(rules: seq<RuleChunk>): Result<seq<string>, string> {
    RenderAll(rules, RenderRule)
  }

  /** Each item rendered with its position counted from 1, stopping at the first failure. */
  function RenderAll<T>(xs: seq<T>, render: (nat, T) -> Result<string, string>): Result<seq<string>, string>
    decreases |xs|
  {
    if |xs| == 0 then Success([])
    else
      match RenderAll(xs[..|xs| - 1], render)
      case Failure(e) => Failure(e)
      case Success(parts) =>
        match render(|xs|, xs[|xs| - 1])
        case Failure(e) => Failure(e)
        case Success(section) => Success(parts + [section])
  }

  lemma {:induction false} RenderAllAt<T>(xs: seq<T>, render: (nat, T) -> Result<string, string>)
    ensures RenderAll(xs, render).Success? <==> forall i :: 0 <= i < |xs| ==> render(i + 1, xs[i]).Success?
    ensures RenderAll(xs, render).Success? ==>
              |RenderAll(xs, render).value| == |xs|
              && forall i :: 0 <= i < |xs| ==> render(i + 1, xs[i]) == Success(RenderAll(xs, render).value[i])
    decreases |xs|
  {
    if |xs| > 0 {
      var n := |xs|;
      var init := xs[..n - 1];
      RenderAllAt(init, render);
      assert forall i :: 0 <= i < n - 1 ==> init[i] == xs[i];
    }
  }

  /** The sections exist exactly when every rule renders, and section `i` is rule `i` rendered as number `i + 1`. */
  lemma RuleSectionsAt(rules: seq<RuleChunk>)
    ensures RuleSections(rules).Success? <==> forall i :: 0 <= i < |rules| ==> RenderRule(i + 1, rules[i]).Success?
    ensures RuleSections(rules).Success? ==>
              |RuleSections(rules).value| == |rules|
              && forall i :: 0 <= i < |rules| ==> RenderRule(i + 1, rules[i]) == Success(RuleSections(rules).value[i])
  {
    RenderAllAt(rules, RenderRule);
  }

  /** `_build_context`: the fixed text for no rules, else the rule sections joined by separators. */
  function BuildContext(rules: seq<RuleChunk>): (r: Result<string, string>)
    ensures |rules| == 0 ==> r == Success(NoRulesText)
    ensures |rules| > 0 && r.Success? ==> RuleSections(rules).Success? && r.value == Join(RuleSections(rules).value, SectionSeparator)
    ensures r.Failure? <==> exists i :: 0 <= i < |rules| && RenderRule(i + 1, rules[i]).Failure?
  {
    RuleSectionsAt(rules);
    if |rules| == 0 then Success(NoRulesText)
    else
      match RuleSections(rules)
      case Failure(e) => Failure(e)
      case Success(parts) => Success(Join(parts, SectionSeparator))
  }

  /** The diff text shown for a file: the annotated content unless absent or empty. */
  function DiffBody(fd: FileDiff): (body: string)
    ensures fd.annotatedContent.Some? && fd.annotatedContent.value != "" ==> body == fd.annotatedContent.value
    ensures fd.annotatedContent.None? || fd.annotatedContent == Some("") ==> body == fd.diffContent
  {
    match fd.annotatedContent
    case Some(a) => if a != "" then a else fd.diffContent
    case None => fd.diffContent
  }

  function FileSection(fd: FileDiff): string {
    "### File: `" + fd.filePath + "`\n\n"
    + "**Change Type**: " + ChangeTypeName(fd.changeType) + "\n"
    + "**Additions**: +" + NatToString(fd.additions) + " | **Deletions**: -" + NatToString(fd.deletions) + "\n\n"
    + "```diff\n" + DiffBody(fd) + "\n```"
  }

  /** A file section names the file first and ends with its diff in a fenced block. */
  lemma FileSectionShape(fd: FileDiff)
    ensures StartsWith(FileSection(fd), "### File: `" + fd.filePath + "`\n\n")
    ensures EndsWith(FileSection(fd), "```diff\n" + DiffBody(fd) + "\n```")
  {
    var sec := FileSection(fd);
    var head := "### File: `" + fd.filePath + "`\n\n";
    var tail := "```diff\n" + DiffBody(fd) + "\n```";
    assert sec[..|head|] == head;
    assert sec[|sec| - |tail|..] == tail;
  }

  /** `_build_input`: the file sections, in order, joined by separators. */
  function BuildInput(fds: seq<FileDiff>): string {
    Join(seq(|fds|, i requires 0 <= i < |fds| => FileSection(fds[i])), SectionSeparator)
  }

  /** `build_review_prompt`; a failure rendering the rules propagates. */
  function BuildReviewPrompt(fds: seq<FileDiff>, rules: seq<RuleChunk>): (r: Result<string, string>)
    ensures r.Failure? <==> BuildContext(rules).Failure?
  {
    match BuildContext(rules)
    case Failure(e) => Failure(e)
    case Success(context) =>
      Success(SystemPrompt + ContextHeading + context + InputHeading + BuildInput(fds) + TaskSection)
  }

  /** The pieces of a concatenation sit at the sums of the lengths before them. */
  lemma PiecesInOrder(a: string, b: string, c: string, d: string, e: string, f: string)
    ensures StartsWith(a + b + c + d + e + f, a)
    ensures OccursAt(a + b + c + d + e + f, c, |a| + |b|)
    ensures OccursAt(a + b + c + d + e + f, e, |a| + |b| + |c| + |d|)
  {
    var p := a + b + c + d + e + f;
    var i := |a| + |b|;
    var j := i + |c| + |d|;
    assert p[..|a|] == a;
    assert p[i..i + |c|] == c;
    assert p[j..j + |e|] == e;
  }

  /** The instructions come first, then the rules, then the code changes. */
  lemma PromptOrder(fds: seq<FileDiff>, rules: seq<RuleChunk>)
    requires BuildContext(rules).Success?
    ensures StartsWith(BuildReviewPrompt(fds, rules).value, SystemPrompt)
    ensures OccursAt(BuildReviewPrompt(fds, rules).value, BuildContext(rules).value,
                     |SystemPrompt| + |ContextHeading|)
    ensures OccursAt(BuildReviewPrompt(fds, rules).value, BuildInput(fds),
                     |SystemPrompt| + |ContextHeading| + |BuildContext(rules).value| + |InputHeading|)
  {
    PiecesInOrder(SystemPrompt, ContextHeading, BuildContext(rules).value, InputHeading, BuildInput(fds), TaskSection);
  }
}
