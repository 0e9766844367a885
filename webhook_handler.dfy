/**
 * The Bitbucket webhook: the signature check, the event-key mapping, the
 * pull-request event built from the payload, and whether it is reviewed.
 *
 * The HMAC-SHA256 hex digest of the body under the shared secret is the
 * parameter `hexDigest`; the parsed JSON payload is `WebhookPayload`.
 */
module WebhookHandler {
  import opened Wrappers
  import opened Text
  import opened Models

  /**
   * An `HTTPException`; a pydantic validation error while building the event;
   * or another exception raised on the way, with its message.
   */
  datatype Rejection = HttpError(status: int, detail: string) | InvalidEvent | Raised(message: string)

  /** `_calculate_signature`: the digest in the header's format. */
  function ExpectedSignature(secret: string, body: string, hexDigest: (string, string) -> string): (s: string)
    ensures StartsWith(s, "sha256=") && s[7..] == hexDigest(secret, body)
  {
    "sha256=" + hexDigest(secret, body)
  }

  /** Text that `hmac.compare_digest` accepts: every character is ASCII. */
  predicate IsAscii(s: string) {
    forall i :: 0 <= i < |s| ==> s[i] <= '\U{7F}'
  }

  const NonAsciiCompare := "comparing strings with non-ASCII characters is not supported"

  /**
   * `validate_webhook`: a missing or empty `X-Hub-Signature` is refused with
   * 401; comparing a signature holding a non-ASCII character raises a
   * `TypeError`; a signature other than the expected one is refused with 401.
   */
  function ValidateWebhook(signature: Option<string>, secret: string, body: string,
                           hexDigest: (string, string) -> string): (r: Result<bool, Rejection>)
    ensures r.Success? <==> signature.Some? && signature.value == ExpectedSignature(secret, body, hexDigest)
                            && IsAscii(signature.value)
    ensures r.Success? ==> r.value
    ensures (signature.None? || signature == Some("")) ==> r == Failure(HttpError(401, "Missing signature"))
    ensures signature.Some? && signature.value != ""
            && !(IsAscii(signature.value) && IsAscii(ExpectedSignature(secret, body, hexDigest)))
            ==> r == Failure(Raised(NonAsciiCompare))
    ensures signature.Some? && IsAscii(signature.value) && IsAscii(ExpectedSignature(secret, body, hexDigest))
            && signature.value != "" && signature.value != ExpectedSignature(secret, body, hexDigest)
            ==> r == Failure(HttpError(401, "Invalid signature"))
  {
    if signature.None? || signature.value == "" then Failure(HttpError(401, "Missing signature"))
    else
      var expected := ExpectedSignature(secret, body, hexDigest);
      if !IsAscii(signature.value) || !IsAscii(expected) then Failure(Raised(NonAsciiCompare))
      else if signature.value != expected then Failure(HttpError(401, "Invalid signature"))
      else Success(true)
  }

  /**
   * Every refusal of an ASCII signature is a 401 when the digest is ASCII, as
   * a hex digest is; any other refusal is the comparison's `TypeError`.
   */
  lemma SignatureRefusalsAre401(signature: Option<string>, secret: string, body: string,
                                hexDigest: (string, string) -> string)
    ensures var r := ValidateWebhook(signature, secret, body, hexDigest);
            r.Failure? && (signature.None? || IsAscii(signature.value)) && IsAscii(hexDigest(secret, body))
            ==> r.error.HttpError? && r.error.status == 401
    ensures var r := ValidateWebhook(signature, secret, body, hexDigest);
            r.Failure? ==> (r.error.HttpError? && r.error.status == 401) || r.error == Raised(NonAsciiCompare)
  {
    var e := ExpectedSignature(secret, body, hexDigest);
    if IsAscii(hexDigest(secret, body)) {
      forall i | 0 <= i < |e|
        ensures e[i] <= '\U{7F}'
      {
        if i >= 7 {
          assert e[i] == hexDigest(secret, body)[i - 7];
        }
      }
    }
  }

  /** `_map_event_type`: the four known keys, and `updated` for any other key. */
  function MapEventType(eventKey: string): (t: EventType)
    ensures eventKey == "pullrequest:created" ==> t == Created
    ensures eventKey == "pullrequest:updated" ==> t == Updated
    ensures eventKey == "pullrequest:approved" ==> t == Approved
    ensures eventKey == "pullrequest:fulfilled" ==> t == Merged
    ensures !KnownKey(eventKey) ==> t == Updated
  {
    if eventKey == "pullrequest:created" then Created
    else if eventKey == "pullrequest:updated" then Updated
    else if eventKey == "pullrequest:approved" then Approved
    else if eventKey == "pullrequest:fulfilled" then Merged
    else Updated
  }

  predicate KnownKey(eventKey: string) {
    eventKey in {"pullrequest:created", "pullrequest:updated", "pullrequest:approved", "pullrequest:fulfilled"}
  }

  /** `should_review`: created and updated events are reviewed. */
  predicate ShouldReview(ev: PREvent) {
    ev.eventType == Created || ev.eventType == Updated
  }

  /**
   * An event is reviewed exactly when its key is neither `approved` nor
   * `fulfilled`: unknown keys, the empty key included, are reviewed.
   */
  lemma ReviewedKeys(ev: PREvent, eventKey: string)
    requires ev.eventType == MapEventType(eventKey)
    ensures ShouldReview(ev) <==> eventKey != "pullrequest:approved" && eventKey != "pullrequest:fulfilled"
  {
  }

  /** A key of a JSON object: absent, `null`, or holding a value. */
  datatype Field<T> = Absent | Null | Given(value: T)

  /** `obj.get(key, '')` for a text field: `null` reads as `None`. */
  function TextOr(f: Field<string>): Option<string> {
    match f
    case Absent => Some("")
    case Null => None
    case Given(s) => Some(s)
  }

  /** A `branch` object and the `source` or `destination` object holding it. */
  datatype Branch = Branch(name: Field<string>)
  datatype Side = Side(branch: Field<Branch>)
  datatype Author = Author(username: Field<string>)

  /**
   * The `pullrequest` object of a payload, key by key. A `null` object in the
   * chains `source.branch.name`, `destination.branch.name` and
   * `author.username` makes the next `.get` raise.
   */
  datatype PullRequestData = PullRequestData(
    id: Field<int>,
    title: Field<string>,
    source: Field<Side>,
    destination: Field<Side>,
    author: Field<Author>)

  /** `None` stands for an absent, `null` or empty `pullrequest` object. */
  datatype WebhookPayload = WebhookPayload(pullrequest: Option<PullRequestData>)

  const NoneGet := "'NoneType' object has no attribute 'get'"

  /** `side.get('branch', {}).get('name', '')`, from an absent side read as `{}`. */
  function BranchName(side: Field<Side>): Result<Option<string>, Rejection> {
    match side
    case Absent => Success(Some(""))
    case Null => Failure(Raised(NoneGet))
    case Given(sd) =>
      match sd.branch
      case Absent => Success(Some(""))
      case Null => Failure(Raised(NoneGet))
      case Given(b) => Success(TextOr(b.name))
  }

  /** `pr.get('author', {}).get('username', '')`. */
  function AuthorName(author: Field<Author>): Result<Option<string>, Rejection> {
    match author
    case Absent => Success(Some(""))
    case Null => Failure(Raised(NoneGet))
    case Given(a) => Success(TextOr(a.username))
  }

  /** Some object on the way to a branch or author name is `null`. */
  predicate NullObject(pr: PullRequestData) {
    pr.source.Null? || (pr.source.Given? && pr.source.value.branch.Null?)
    || pr.destination.Null? || (pr.destination.Given? && pr.destination.value.branch.Null?)
    || pr.author.Null?
  }

  /** No field the event needs is `null`, and the id is present. */
  predicate NoNullText(pr: PullRequestData) {
    pr.id.Given? && !pr.title.Null?
    && !(pr.source.Given? && pr.source.value.branch.Given? && pr.source.value.branch.value.name.Null?)
    && !(pr.destination.Given? && pr.destination.value.branch.Given? && pr.destination.value.branch.value.name.Null?)
    && !(pr.author.Given? && pr.author.value.username.Null?)
  }

  /** The name a side leads to, empty where a key is absent. */
  function SideName(side: Field<Side>): string {
    if side.Given? && side.value.branch.Given? && side.value.branch.value.name.Given?
    then side.value.branch.value.name.value else ""
  }

  /**
   * `parse_pr_event`: a payload without pull-request data is refused with
   * 400; a `null` object on the way to a name raises while the arguments are
   * built; a missing id or a `null` text fails the event's validation;
   * absent names are empty. An absent `X-Event-Key` header is the empty key.
   */
  function ParsePrEvent(payload: WebhookPayload, eventKey: Option<string>): (r: Result<PREvent, Rejection>)
    ensures payload.pullrequest.None? ==> r == Failure(HttpError(400, "Invalid payload"))
    ensures payload.pullrequest.Some? && NullObject(payload.pullrequest.value) ==> r == Failure(Raised(NoneGet))
    ensures payload.pullrequest.Some? && !NullObject(payload.pullrequest.value)
            && !NoNullText(payload.pullrequest.value)
            ==> r == Failure(InvalidEvent)
    ensures r.Success? <==> payload.pullrequest.Some? && !NullObject(payload.pullrequest.value)
                            && NoNullText(payload.pullrequest.value)
    ensures r.Success? ==>
              var pr := payload.pullrequest.value;
              r.value == PREvent(pr.id.value, if pr.title.Given? then pr.title.value else "",
                                 SideName(pr.source), SideName(pr.destination),
                                 if pr.author.Given? && pr.author.value.username.Given?
                                 then pr.author.value.username.value else "",
                                 MapEventType(eventKey.GetOr("")))
  {
    var eventType := MapEventType(eventKey.GetOr(""));
    match payload.pullrequest
    case None => Failure(HttpError(400, "Invalid payload"))
    case Some(pr) =>
      var source := BranchName(pr.source);
      var destination := BranchName(pr.destination);
      var author := AuthorName(pr.author);
      if source.Failure? then Failure(source.error)
      else if destination.Failure? then Failure(destination.error)
      else if author.Failure? then Failure(author.error)
      else
        match (pr.id, TextOr(pr.title), source.value, destination.value, author.value)
        case (Given(id), Some(title), Some(src), Some(dst), Some(user)) =>
          Success(PREvent(id, title, src, dst, user, eventType))
        case _ => Failure(InvalidEvent)
  }

  /** A webhook without an event key is reviewed whenever its payload parses. */
  lemma MissingKeyIsReviewed(payload: WebhookPayload)
    requires ParsePrEvent(payload, None).Success?
    ensures ShouldReview(ParsePrEvent(payload, None).value)
  {
    ReviewedKeys(ParsePrEvent(payload, None).value, "");
  }
}
