/**
 * Posting a review's findings to the pull request: one inline comment per
 * finding, whose failure does not stop the others, then one summary
 * comment when there was anything to report.
 *
 * The HTTP requests are the parameters `post` and `postSummary`, which say
 * whether the server accepted the comment. The emoji are written with the
 * code points the source file holds.
 */
module CommentPoster {
  import opened Wrappers
  import opened Text
  import opened Models

  const HighEmoji := "\U{F8FF}\U{FC}\U{EE}\U{A5}"
  const MediumEmoji := "\U{F8FF}\U{FC}\U{FC}\U{B0}"
  const LowEmoji := "\U{F8FF}\U{FC}\U{EE}\U{B5}"
  const OtherEmoji := "\U{201A}\U{D1}\U{3C0}\U{D4}\U{220F}\U{E8}"

  /** `severity_emoji.get(severity, fallback)` */
  function SeverityEmoji(severity: string): (e: string)
    ensures severity == "High" ==> e == HighEmoji
    ensures severity == "Medium" ==> e == MediumEmoji
    ensures severity == "Low" ==> e == LowEmoji
    ensures !ValidSeverity(severity) ==> e == OtherEmoji
  {
    if severity == "High" then HighEmoji
    else if severity == "Medium" then MediumEmoji
    else if severity == "Low" then LowEmoji
    else OtherEmoji
  }

  /** The three severities and the fallback are told apart by their emoji. */
  lemma EmojiDistinguishSeverities(s: string, t: string)
    requires s != t && (ValidSeverity(s) || ValidSeverity(t))
    ensures SeverityEmoji(s) != SeverityEmoji(t)
  {
    assert HighEmoji[2] != MediumEmoji[2] && HighEmoji[3] != LowEmoji[3] && MediumEmoji[2] != LowEmoji[2];
    assert |OtherEmoji| != |HighEmoji|;
  }

  /** The first line of every comment: emoji, bold severity, rule. */
  function Heading(f: Finding): string {
    SeverityEmoji(f.severity) + " **" + f.severity + "**: " + f.rule
  }

  /** Python's truth value of an optional string. */
  predicate Truthy(s: Option<string>) {
    s.Some? && s.value != ""
  }

  /** `str()` of an optional string, as an f-string renders it. */
  function Show(s: Option<string>): string {
    match s
    case Some(v) => v
    case None => "None"
  }

  function CategoryLine(category: string): string {
    "*Category: " + category + "*"
  }

  /**
   * `_format_comment`: heading, a blank line and the suggestion, then a
   * blank line and the category only when there is a non-empty category.
   */
  function FormatComment(f: Finding): (text: string)
    ensures StartsWith(text, Heading(f) + "\n\n" + f.suggestion)
    ensures !Truthy(f.category) ==> text == Heading(f) + "\n\n" + f.suggestion
    ensures Truthy(f.category) ==> text == Heading(f) + "\n\n" + f.suggestion + "\n\n" + CategoryLine(f.category.value)
  {
    var lines := [Heading(f), "", f.suggestion];
    var lines' := if Truthy(f.category) then lines + ["", CategoryLine(f.category.value)] else lines;
    JoinThree(Heading(f), "", f.suggestion);
    if Truthy(f.category) then
      JoinFive(Heading(f), "", f.suggestion, "", CategoryLine(f.category.value));
      Join(lines', "\n")
    else
      Join(lines', "\n")
  }

  lemma JoinThree(a: string, b: string, c: string)
    ensures Join([a, b, c], "\n") == a + "\n" + b + "\n" + c
  {
    assert [a, b, c][1..] == [b, c];
    assert [b, c][1..] == [c];
    assert Join([b, c], "\n") == b + "\n" + c;
  }

  lemma JoinFive(a: string, b: string, c: string, d: string, e: string)
    ensures Join([a, b, c] + [d, e], "\n") == a + "\n" + b + "\n" + c + "\n" + d + "\n" + e
  {
    var xs := [a, b, c] + [d, e];
    assert xs[1..] == [b, c, d, e];
    assert xs[1..][1..] == [c, d, e];
    assert xs[1..][1..][1..] == [d, e];
    assert xs[1..][1..][1..][1..] == [e];
    assert Join([d, e], "\n") == d + "\n" + e;
    assert Join([c, d, e], "\n") == c + "\n" + d + "\n" + e;
    assert Join([b, c, d, e], "\n") == b + "\n" + c + "\n" + d + "\n" + e;
  }

  /**
   * The text of an inline comment as posted: like `_format_comment`, but the
   * category line is always there, showing `None` or an empty name as is.
   */
  function InlineText(f: Finding): string {
    Heading(f) + "\n\n" + f.suggestion + "\n\n" + CategoryLine(Show(f.category))
  }

  /** With a category the posted text is the formatted comment; without one it is not. */
  lemma InlineTextVersusFormat(f: Finding)
    ensures Truthy(f.category) <==> InlineText(f) == FormatComment(f)
  {
    if !Truthy(f.category) {
      assert |InlineText(f)| > |FormatComment(f)|;
    }
  }

  /** The body of the inline comment request: its text, the line it sits on and the file. */
  datatype InlinePayload = InlinePayload(raw: string, to: Option<int>, path: string)

  function Payload(f: Finding): (p: InlinePayload)
    ensures p.to == f.line && p.path == f.file && EndsWith(p.raw, CategoryLine(Show(f.category)))
  {
    InlinePayload(InlineText(f), f.line, f.file)
  }

  const DoneMark := "\U{201A}\U{FA}\U{D6}"
  const ClipboardMark := "\U{F8FF}\U{FC}\U{EC}\U{E3}"
  const NoIssuesSummary := DoneMark + " **Code Review Complete**\n\nNo issues found. Great work!"
  const SummaryHead := ClipboardMark + " **Code Review Complete**\n\nFound "
  const SummaryMiddle := " issue(s) that need attention.\nReview completed in "

  /**
   * `post_summary_comment`'s text; `processingTime` is the seconds already
   * formatted with one decimal.
   */
  function SummaryText(findingsCount: int, processingTime: string): (s: string)
    ensures findingsCount == 0 ==> s == NoIssuesSummary
    ensures findingsCount != 0 ==> s == SummaryHead + IntToString(findingsCount) + SummaryMiddle + processingTime + "s."
  {
    if findingsCount == 0 then NoIssuesSummary
    else SummaryHead + IntToString(findingsCount) + SummaryMiddle + processingTime + "s."
  }

  /** Different non-zero counts give different summaries, and none of them is the no-issues text. */
  lemma SummaryTellsCount(m: nat, n: nat)
    requires m != 0 && n != 0 && m != n
    ensures SummaryText(m, "0.0") != SummaryText(n, "0.0")
    ensures SummaryText(m, "0.0") != NoIssuesSummary
  {
    var tail := SummaryMiddle + "0.0" + "s.";
    SummaryShape(m, tail);
    SummaryShape(n, tail);
    if SummaryText(m, "0.0") == SummaryText(n, "0.0") {
      MiddleInjective(SummaryHead, NatToString(m), NatToString(n), tail);
      NatToStringInjective(m, n);
    }
    SummaryNotNoIssues(m);
  }

  lemma SummaryShape(n: nat, tail: string)
    requires n != 0 && tail == SummaryMiddle + "0.0" + "s."
    ensures SummaryText(n, "0.0") == SummaryHead + NatToString(n) + tail
  {
    assert IntToString(n) == NatToString(n);
  }

  lemma SummaryNotNoIssues(n: nat)
    requires n != 0
    ensures SummaryText(n, "0.0") != NoIssuesSummary
  {
    var s := SummaryText(n, "0.0");
    assert s[0] == SummaryHead[0] == ClipboardMark[0];
    assert NoIssuesSummary[0] == DoneMark[0];
  }

  /** Texts with the same head and tail are equal only when their middles are. */
  lemma MiddleInjective<T>(head: seq<T>, a: seq<T>, b: seq<T>, tail: seq<T>)
    requires head + a + tail == head + b + tail
    ensures a == b
  {
    var x := head + a + tail;
    assert |a| == |b|;
    assert a == x[|head|..|head| + |a|];
  }

  /** How many of the findings' inline comments the server accepts. */
  function Accepted(findings: seq<Finding>, post: InlinePayload -> bool): nat
    decreases |findings|
  {
    if |findings| == 0 then 0
    else Accepted(findings[..|findings| - 1], post) + (if post(Payload(findings[|findings| - 1])) then 1 else 0)
  }

  /** At most every finding is posted, and all of them exactly when each post is accepted. */
  lemma {:induction false} AcceptedBounds(findings: seq<Finding>, post: InlinePayload -> bool)
    ensures Accepted(findings, post) <= |findings|
    ensures Accepted(findings, post) == |findings| <==> forall f :: f in findings ==> post(Payload(f))
    decreases |findings|
  {
    if |findings| > 0 {
      var init := findings[..|findings| - 1];
      AcceptedBounds(init, post);
      assert findings == init + [findings[|findings| - 1]];
    }
  }

  /**
   * `post_findings`: every finding's comment is attempted in order, and the
   * accepted ones are counted; a summary with the placeholder time `0.0` is
   * attempted only when there are findings. The result is the count alone.
   */
  method PostFindings(findings: seq<Finding>, post: InlinePayload -> bool, postSummary: string -> bool)
    returns (postedCount: nat, attempted: seq<InlinePayload>, summary: Option<string>)
    ensures postedCount == Accepted(findings, post) && postedCount <= |findings|
    ensures |attempted| == |findings| && forall k :: 0 <= k < |findings| ==> attempted[k] == Payload(findings[k])
    ensures summary.Some? <==> |findings| > 0
    ensures summary.Some? ==> summary.value == SummaryText(|findings|, "0.0")
  {
    postedCount, attempted := PostInline(findings, post);
    AcceptedBounds(findings, post);
    summary := None;
    if |findings| > 0 {
      var text := SummaryText(|findings|, "0.0");
      var ok := postSummary(text);
      summary := Some(text);
    }
  }

  /** The loop of `post_findings`: one request per finding, a failed one not stopping the rest. */
  method PostInline(findings: seq<Finding>, post: InlinePayload -> bool)
    returns (postedCount: nat, attempted: seq<InlinePayload>)
    ensures postedCount == Accepted(findings, post)
    ensures |attempted| == |findings| && forall k :: 0 <= k < |findings| ==> attempted[k] == Payload(findings[k])
  {
    postedCount := 0;
    attempted := [];
    for i := 0 to |findings|
      invariant postedCount == Accepted(findings[..i], post)
      invariant attempted == Payloads(findings[..i])
    {
      AcceptedSnoc(findings, i, post);
      var payload := Payload(findings[i]);
      attempted := attempted + [payload];
      if post(payload) {
        postedCount := postedCount + 1;
      }
    }
    assert findings[..|findings|] == findings;
    PayloadsAt(findings);
  }

  /** The requests for the findings, in order. */
  function Payloads(findings: seq<Finding>): seq<InlinePayload>
    decreases |findings|
  {
    if |findings| == 0 then [] else Payloads(findings[..|findings| - 1]) + [Payload(findings[|findings| - 1])]
  }

  lemma {:induction false} PayloadsAt(findings: seq<Finding>)
    ensures |Payloads(findings)| == |findings|
    ensures forall k :: 0 <= k < |findings| ==> Payloads(findings)[k] == Payload(findings[k])
    decreases |findings|
  {
    if |findings| > 0 {
      var init := findings[..|findings| - 1];
      PayloadsAt(init);
      assert forall k :: 0 <= k < |init| ==> init[k] == findings[k];
    }
  }

  /** Reading one more finding adds one to the count exactly when its request is accepted. */
  lemma AcceptedSnoc(findings: seq<Finding>, i: nat, post: InlinePayload -> bool)
    requires i < |findings|
    ensures Accepted(findings[..i + 1], post)
            == Accepted(findings[..i], post) + (if post(Payload(findings[i])) then 1 else 0)
    ensures Payloads(findings[..i + 1]) == Payloads(findings[..i]) + [Payload(findings[i])]
  {
    assert findings[..i + 1][..i] == findings[..i];
  }
}
