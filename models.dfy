/**
 * The records the review pipeline passes between its stages, with the field
 * constraints their declarations impose. Floating-point fields are scaled to
 * integers: an anchor's confidence is in hundredths (1.0 is 100) and a rule's
 * relevance score is in thousandths (1.0 is 1000).
 */
module Models {
  import opened Wrappers

  /** How a file changed in the pull request. */
  datatype ChangeType = Added | Modified | Deleted

  /** The change type as the record spells it. */
  function ChangeTypeName(t: ChangeType): (name: string)
    ensures name in {"added", "modified", "deleted"}
  {
    match t
    case Added => "added"
    case Modified => "modified"
    case Deleted => "deleted"
  }

  /** One file of a pull request's diff; the line counts are non-negative by type. */
  datatype FileDiff = FileDiff(
    filePath: string,
    diffContent: string,
    changeType: ChangeType,
    additions: nat,
    deletions: nat,
    annotatedContent: Option<string>)

  /**
   * Building a `FileDiff` from raw values: a negative line count fails the
   * record's validation, anything else is accepted as given.
   */
  function MakeFileDiff(path: string, content: string, changeType: ChangeType,
                        additions: int, deletions: int, annotated: Option<string>): (r: Result<FileDiff, string>)
    ensures r.Success? <==> additions >= 0 && deletions >= 0
    ensures r.Success? ==> r.value.filePath == path && r.value.diffContent == content
                           && r.value.changeType == changeType
                           && r.value.additions == additions && r.value.deletions == deletions
                           && r.value.annotatedContent == annotated
  {
    if additions < 0 || deletions < 0 then Failure("validation error: value must be >= 0")
    else Success(FileDiff(path, content, changeType, additions, deletions, annotated))
  }

  /** How an anchor was detected. */
  datatype AnchorSource = Extension | Annotation | Pattern | Keyword

  /** A detected code pattern; `confidence` is in hundredths. */
  datatype Anchor = Anchor(tag: string, confidence: nat, source: AnchorSource)

  /** The record's bound `0.0 <= confidence <= 1.0`. */
  predicate ValidAnchor(a: Anchor) {
    a.confidence <= 100
  }

  /** A metadata value as the vector store keeps it: text or a whole number. */
  datatype MetaValue = MStr(s: string) | MInt(i: int)

  type Metadata = map<string, MetaValue>

  /** A piece of a rule document. */
  datatype Chunk = Chunk(content: string, metadata: Metadata, chunkId: string, sourceFile: string)

  /** A retrieved rule with its relevance score in thousandths. */
  datatype RuleChunk = RuleChunk(chunk: Chunk, relevanceScore: int)

  /** The record's bound `0.0 <= relevance_score <= 1.0`. */
  predicate ValidRuleChunk(r: RuleChunk) {
    0 <= r.relevanceScore <= 1000
  }

  /** The three severities a finding may carry. */
  predicate ValidSeverity(s: string) {
    s == "High" || s == "Medium" || s == "Low"
  }

  /**
   * A review finding. `codeSnippet` is the code the model quoted ("" when it
   * quoted none); verification re-anchors `line` with it.
   */
  datatype Finding = Finding(
    file: string,
    line: Option<int>,
    codeSnippet: string,
    severity: string,
    rule: string,
    suggestion: string,
    category: Option<string>)

  /** A finding as the record admits it: one of the three severities. */
  predicate ValidFinding(f: Finding) {
    ValidSeverity(f.severity)
  }

  /**
   * The fields of a finding as a JSON object supplies them; `None` is a
   * missing key.
   */
  datatype RawFinding = RawFinding(
    file: Option<string>,
    line: Option<int>,
    codeSnippet: Option<string>,
    severity: Option<string>,
    rule: Option<string>,
    suggestion: Option<string>,
    category: Option<string>)

  /**
   * Building a `Finding` from its fields: `file`, `severity`, `rule` and
   * `suggestion` are required and the severity must be one of the three;
   * `line` and `category` default to none. Anything else fails validation.
   */
  function MakeFinding(raw: RawFinding): (r: Option<Finding>)
    ensures r.Some? <==> raw.file.Some? && raw.severity.Some? && ValidSeverity(raw.severity.value)
                         && raw.rule.Some? && raw.suggestion.Some?
    ensures r.Some? ==> ValidFinding(r.value)
                        && r.value.file == raw.file.value && r.value.line == raw.line
                        && r.value.rule == raw.rule.value && r.value.suggestion == raw.suggestion.value
                        && r.value.category == raw.category
                        && r.value.severity == raw.severity.value
                        && r.value.codeSnippet == raw.codeSnippet.GetOr("")
  {
    if raw.file.Some? && raw.severity.Some? && ValidSeverity(raw.severity.value)
       && raw.rule.Some? && raw.suggestion.Some?
    then Some(Finding(raw.file.value, raw.line, raw.codeSnippet.GetOr(""), raw.severity.value,
                      raw.rule.value, raw.suggestion.value, raw.category))
    else None
  }

  /** A manual review request. */
  datatype ReviewRequest = ReviewRequest(prId: int, forceRefresh: bool)

  /** A request naming only the pull request: re-review is not forced. */
  function DefaultReviewRequest(prId: int): (r: ReviewRequest)
    ensures r.prId == prId && !r.forceRefresh
  {
    ReviewRequest(prId, false)
  }

  /** The pull-request events the webhook understands. */
  datatype EventType = Created | Updated | Approved | Merged

  /** A pull-request event; the timestamp is left out. */
  datatype PREvent = PREvent(
    prId: int,
    title: string,
    sourceBranch: string,
    destinationBranch: string,
    author: string,
    eventType: EventType)
}
