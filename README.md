# A verified model of the RAG code reviewer's core

This project models, in Dafny, the path a pull request takes through the
review agent: from the unified diff fetched from Bitbucket to the review
findings saved on disk. Each source file of the core is one module.

- **Diff parsing** (`DiffFetcher`): the diff text is cut into per-file records
  using the diffstat. Each file is classified as added, modified or deleted.
  Every added and context line is prefixed with its post-change line number;
  the counter resets at each `@@` hunk header.
- **Partitioning** (`Partitioner`): a greedy, order-preserving, file-atomic
  split of the file diffs into chunks bounded by a number of lines.
- **The per-chunk graph** (`ReviewGraph`): seven steps in a fixed order.
  1. Anchor detection (`AnchorDetector`, merged by first-wins de-duplication in `Dedup`).
  2. Rule retrieval (`QueryBuilder`, `Retriever`).
  3. Prompt building (`PromptBuilder`).
  4. Generation by the language model.
  5. Response parsing and validation (`ResponseParser`).
  6. Re-anchoring of findings to the lines that hold their code (`FindingVerifier`).
  7. Posting, which the source has switched off.

  A step that raises records its message in `error` and the graph carries on.
- **The run** (`ReviewGraph.ReviewWorkflow.Run`): fetches the diff, partitions
  it, drives the graph over every chunk in order, and gathers the findings and
  the error text. A reporter (`Reporter`) whose state is a map from path to
  written artifact records the progress and the artifacts.
- **The rule chunker** (`Chunker`): rule documents are split at `##`/`###`
  headers, then at blank lines with a trailing overlap. Each piece gets
  metadata and a digest-based id.
- **The small handlers**: comment formatting and the posted-count policy
  (`CommentPoster`), webhook validation and event mapping (`WebhookHandler`),
  manual request validation (`ManualReviewHandler`), and the records of
  `src/models.py` (`Models`).
- **Helpers**: Python's string operations as the source uses them live in
  `Text` (split, join, strip, `lstrip(chars)`, `int()`/`str()`, `Path.stem`),
  and `Option`/`Result` in `Wrappers`.

Code that works by changing things step by step is modelled the same way, and
each such method is proved against a specification function:

- the loops (partitioning, annotation, the chunk loop, the verification loops,
  the paragraph and overlap loops) are `method`s with invariants;
- the state dictionary of the graph (`ReviewState`), the reporter
  (`ReviewReporter`) and the workflow (`ReviewWorkflow`) are classes whose
  methods update their fields.

Everything outside the process is a parameter: each one is a function that
returns a value or a failure. The parameters are:

- the Bitbucket requests, the file fetch and the comment posts;
- the language model and the vector store;
- `json.loads` and every regular-expression search;
- the MD5 and HMAC digests;
- whether a regular expression compiles, and its error message;
- the iteration order of a Python set;
- the clock.

Floating-point values are scaled integers:

- anchor confidence is in hundredths (1.0, 0.9, 0.8, 0.7 become 100, 90, 80, 70);
- relevance scores and the similarity threshold are in thousandths (the default 0.7 is 700).

Behaviours of the code worth knowing:

- **Unparseable hunk header.** The header is kept and numbering carries on
  from the previous value (`DiffFetcher.UnparsedHeaderKeepsNumber`).
- **Status after a failed step.** A failing step sets the status `error`;
  verification alone sets `verification_failed`. The last step always sets
  `complete` (`ReviewGraph.PipelineCompletes`).
- **Response parsing.** The JSON text is decoded as it is; an item that fails
  to construct a finding is skipped.
- **Posted comments.** `posted_comments.json` is overwritten like every other
  artifact.
- **A failed fetch of the diff or its metadata.** The run ends in `error`
  without writing anything, because the run directory does not exist yet
  (`ReviewGraph.RunFetchFailure`).
- **File paths.** The path of a parsed file is stripped of all leading `b`
  and `/` characters (`DiffFetcher.PathStripEatsLeadingB`).
- **`applies_to` in prompts.** The value is rendered by joining a string
  character by character (`PromptBuilder.JoinCharsInterleaves`).
- **The custom registry.** The detector the workflow builds is given no
  registry file, so its custom table is empty and detection cannot fail
  (`ReviewGraph.DefaultDetectorNeverFails`). With a registry, a pattern that
  does not compile makes detection fail (`AnchorDetector.DetectAnchorsFails`).

The model's `Finding` carries the `codeSnippet` that verification reads,
although `src/models.py` declares no such field (see Findings).

## Model

| member | source | states |
|---|---|---|
| Partitioner.PartitionDiffs | src/workflow/partitioner.py:17-74 | the chunks returned are `Partition(fileDiffs, maxLines)`; after each file the loop's closed chunks, open chunk and its line total are `Run` of the files read so far |
| Partitioner.PartitionCorrect | src/workflow/partitioner.py:20-25 | the chunks laid end to end are the input in order; no chunk is empty; every chunk keeps to the bound unless it is one oversized file; every oversized file is alone in its chunk; no two neighbouring chunks could have been one; there are no chunks exactly when there are no files |
| Partitioner.PartitionClosed | src/workflow/partitioner.py:69-71 | flushing the open chunk after the loop keeps the order, non-emptiness, bound and greedy-break properties, and gives no chunks only for no files |
| Partitioner.BoundedChunksIsolateOversized | src/workflow/partitioner.py:22-23 | in chunks that keep to the bound or are single oversized files, a file over the bound is alone in its chunk |
| Partitioner.BoundedFiles | src/workflow/partitioner.py:41 | a file's line count is at most its chunk's total |
| Partitioner.RunInv | src/workflow/partitioner.py:33-67 | after any number of files the loop's state satisfies the invariant: closed chunks plus open chunk are the files read, the closed chunks are non-empty, bounded and greedily broken, the running total is the open chunk's line count and within the bound |
| Partitioner.RunStepInv | src/workflow/partitioner.py:37-67 | consuming one more file keeps the invariant |
| Partitioner.StepInv | src/workflow/partitioner.py:37-67 | each of the three cases of the loop body keeps the invariant |
| Partitioner.StepOversized | src/workflow/partitioner.py:43-54 | a file over the bound closes the open chunk, if any, and becomes a chunk of its own, keeping the invariant |
| Partitioner.StepOverflow | src/workflow/partitioner.py:56-63 | a file that would push the open chunk past the bound closes it and opens the next one, keeping the invariant |
| Partitioner.StepFits | src/workflow/partitioner.py:64-67 | a file that fits joins the open chunk and its lines are added to the total, keeping the invariant |
| Partitioner.CloseChunk | src/workflow/partitioner.py:46-49 | closing a non-empty chunk that is bounded or oversized, after a justified break, keeps the closed chunks non-empty, bounded and greedy and appends its files |
| Partitioner.ExampleGreedy | src/workflow/partitioner.py:24-25 | files of 120, 50 and 40 lines under a bound of 150 give the chunks `[[A], [B, C]]` |
| Partitioner.ExampleExactFit | src/workflow/partitioner.py:57 | a file that brings the total exactly to the bound stays in the open chunk (the test is strictly greater) |
| ManualReviewHandler.ShouldForceRefresh | src/bitbucket/manual_review_handler.py:29-38 | the answer is the request's own `force_refresh` flag, in both directions |
| ManualReviewHandler.DefaultRequests | src/bitbucket/manual_review_handler.py:13-27 | `validate_request` accepts a request exactly when its id is at least 1, and a request with default fields does not force a refresh |
| WebhookHandler.ExpectedSignature | src/bitbucket/webhook_handler.py:49-63 | the expected signature is `sha256=` followed by the hex digest of the body under the secret |
| WebhookHandler.ValidateWebhook | src/bitbucket/webhook_handler.py:19-47 | a webhook is accepted exactly when the signature is present, ASCII and equal to the expected one; a missing or empty signature is refused with 401 `Missing signature`; a signature or digest holding a non-ASCII character makes `hmac.compare_digest` raise a `TypeError`; any other wrong signature is refused with 401 `Invalid signature` |
| WebhookHandler.SignatureRefusalsAre401 | src/bitbucket/webhook_handler.py:31-44 | with an ASCII digest, as a hex digest is, every refusal of a missing or ASCII signature is an HTTP 401; every other refusal is the comparison's `TypeError` |
| WebhookHandler.MapEventType | src/bitbucket/webhook_handler.py:103-119 | the four known event keys map to created, updated, approved and merged; any other key maps to updated |
| WebhookHandler.ReviewedKeys | src/bitbucket/webhook_handler.py:121-131 | an event is reviewed exactly when its key is neither `pullrequest:approved` nor `pullrequest:fulfilled` |
| WebhookHandler.ParsePrEvent | src/bitbucket/webhook_handler.py:65-101 | a payload without pull-request data is refused with 400; a `null` `source`, `branch`, `destination` or `author` object raises `AttributeError`; otherwise a missing or `null` id, or a `null` title, branch or author name, fails the event's validation (src/models.py:80-87); otherwise the event carries the id, the title, branch and author names (empty when absent) and the mapped event key |
| WebhookHandler.MissingKeyIsReviewed | src/bitbucket/webhook_handler.py:77-80 | an event whose `X-Event-Key` header is absent is reviewed whenever its payload parses |
| QueryBuilder.Describe | src/retrieval/query_builder.py:70 | a known tag gets its table description; any other tag is described by itself with every `-` turned into a space, so the description has the tag's length and no `-` |
| QueryBuilder.Descriptions | src/retrieval/query_builder.py:68-71 | one description per tag, in the tags' order |
| QueryBuilder.BuildQuery | src/retrieval/query_builder.py:55-84 | no tags give the general query; one, two, and three or more tags give the three sentence forms built from the first descriptions |
| QueryBuilder.QueryUsesFirstThree | src/retrieval/query_builder.py:79-81 | tags after the third do not change the query |
| QueryBuilder.QueryStartsWithFirstDescription | src/retrieval/query_builder.py:74-81 | every query built from at least one tag begins with the first tag's description |
| QueryBuilder.BuildMetadataFilter | src/retrieval/query_builder.py:86-98 | the filter is always empty |
| Dedup.DedupOnto | src/analysis/anchor_detector.py:95-98 | appending the elements of `xs` whose key is not yet seen, and recording each key, continues first-wins de-duplication: the result is `DedupBy(done + xs)` and the seen set is its keys (the loop shared by anchor merging and `_deduplicate_chunks`) |
| Dedup.DedupKeys | src/retrieval/retriever.py:91-98 | de-duplication leaves pairwise distinct keys and loses no key of the input |
| Dedup.DedupKeepsOnlyFirsts | src/retrieval/retriever.py:95-98 | every kept element is the first element of its key in the input |
| Dedup.DedupKeepsAllFirsts | src/retrieval/retriever.py:95-98 | every first element of a key in the input is kept |
| Dedup.DedupSubsequence | src/retrieval/retriever.py:95-98 | the kept elements appear in the input's order |
| Dedup.DedupMember | src/analysis/anchor_detector.py:95-98 | every merged element is one of the detectors' elements |
| Dedup.DedupDistinct | src/retrieval/retriever.py:95-98 | a sequence whose keys are already distinct is returned unchanged |
| Dedup.DistinctInit | src/retrieval/retriever.py:95-98 | dropping the last element keeps the keys distinct, and the last key does not occur before it |
| Dedup.DedupFreshLast | src/retrieval/retriever.py:96-97 | an element whose key has not been seen is appended |
| Dedup.DedupIdempotent | src/retrieval/retriever.py:79-101 | de-duplicating twice is de-duplicating once |
| Dedup.KeysAppend | src/retrieval/retriever.py:98 | appending an element adds exactly its key to the keys |
| Dedup.SubseqCompose | src/retrieval/retriever.py:59-68 | a subsequence of a subsequence is a subsequence (filter, de-duplicate and cut compose) |
| Dedup.SubseqPrefix | src/retrieval/retriever.py:68 | a prefix is a subsequence |
| Dedup.SubseqSnoc | src/retrieval/retriever.py:59-62 | keeping a new last element extends a subsequence |
| Dedup.SubseqExtend | src/retrieval/retriever.py:59-62 | dropping a new last element keeps a subsequence |
| Retriever.AboveThresholdCorrect | src/retrieval/retriever.py:59-62 | the threshold filter keeps exactly the chunks scoring at least the threshold, in their order |
| Retriever.DeduplicateChunks | src/retrieval/retriever.py:79-101 | the result is the first chunk of each chunk id, in order, and empty for no chunks |
| Retriever.Take | src/retrieval/retriever.py:68 | Python's `s[:k]`: the first `k` elements, or for a negative `k` all but the last `-k` |
| Retriever.PostProcess | src/retrieval/retriever.py:58-68 | at most `top_k` rules are returned |
| Retriever.PostProcessAboveThreshold | src/retrieval/retriever.py:58-68 | every returned rule is one of the store's candidates and scores at least the threshold |
| Retriever.PostProcessDistinct | src/retrieval/retriever.py:64-68 | the returned chunk ids are pairwise distinct |
| Retriever.PostProcessSubsequence | src/retrieval/retriever.py:58-68 | the returned rules keep the store's order |
| Retriever.PostProcessValid | src/models.py:172-180 | when the store's candidates are valid rule chunks, every returned rule is a valid rule chunk (score between 0 and 1.0) scoring at least the threshold |
| Retriever.DeduplicateIdempotent | src/retrieval/retriever.py:88-101 | de-duplicating no chunks gives none, and de-duplicating twice is de-duplicating once |
| Retriever.Retrieved | src/retrieval/retriever.py:43-68 | the store is asked with the built query for twice `top_k` candidates and no filter; its failure propagates, and its answer is post-processed |
| Retriever.RetrieveRules | src/retrieval/retriever.py:21-77 | `top_k` and the threshold fall back to the settings when absent or zero, and the result is `Retrieved` with those values |
| AnchorDetector.Lookup | src/analysis/anchor_detector.py:144-145 | a key is found exactly when the table has an entry for it, and the tags found are that entry's |
| AnchorDetector.ToAnchors | src/analysis/anchor_detector.py:146-149 | one anchor per tag, in order, with the detector's confidence and source |
| AnchorDetector.ExtensionAnchors | src/analysis/anchor_detector.py:133-151 | anchors from the extension map for the lower-cased suffix, all with source extension and confidence 1.0; none for an unknown suffix |
| AnchorDetector.TableAnchorsFrom | src/analysis/anchor_detector.py:164-169 | every reported anchor is a tag of some entry whose key is present |
| AnchorDetector.TableAnchorsComplete | src/analysis/anchor_detector.py:164-169 | every tag of every present entry is reported |
| AnchorDetector.DetectFromTable | src/analysis/anchor_detector.py:162-171 | the loop over the table yields `TableAnchors`: for each present key in table order, its tags in order |
| AnchorDetector.AppendTags | src/analysis/anchor_detector.py:166-169 | one anchor per tag is appended, in order |
| AnchorDetector.TableAnchorsSnoc | src/analysis/anchor_detector.py:164-169 | one more entry adds its anchors exactly when its key is present |
| AnchorDetector.DetectJavaAnnotations | src/analysis/anchor_detector.py:153-171 | annotations present as substrings give their tags with confidence 1.0 and source annotation |
| AnchorDetector.DetectSqlPatterns | src/analysis/anchor_detector.py:173-191 | SQL patterns found by the search give their tags with confidence 0.9 |
| AnchorDetector.DetectCodePatterns | src/analysis/anchor_detector.py:193-211 | code patterns found by the search give their tags with confidence 0.8 |
| AnchorDetector.DetectCustomPatterns | src/analysis/anchor_detector.py:213-231 | the result is `CustomDetection`: the error of the first registry pattern, in table order, that does not compile; otherwise the tags of every entry whose pattern is found, in table order, with confidence 0.7 and source `pattern` |
| AnchorDetector.DetectAnchors | src/analysis/anchor_detector.py:81-131 | the result is `Detection`: the error of the first custom pattern that does not compile, or else the first-wins de-duplication by tag of the extension, annotation (`.java` only), SQL (`.sql` only), code and custom anchors, in that order |
| AnchorDetector.DetectAnchorsFails | src/analysis/anchor_detector.py:224-226 | detection fails exactly when some custom pattern does not compile, and its error is that of the first such pattern in table order |
| AnchorDetector.DetectedAnchorsValid | src/models.py:33-45 | every merged anchor is a valid `Anchor`: a confidence between 0 and 1.0, and in fact one of 1.0, 0.9, 0.8 and 0.7 |
| AnchorDetector.CandidateConfidence | src/analysis/anchor_detector.py:147-228 | every detector's anchor has confidence 1.0, 0.9, 0.8 or 0.7 |
| AnchorDetector.FirstPatternErrorCorrect | src/analysis/anchor_detector.py:224-225 | no error exactly when every pattern of the table compiles; otherwise the error is that of the first pattern that does not |
| AnchorDetector.FirstPatternErrorSticks | src/analysis/anchor_detector.py:224-225 | once a prefix of the table holds a pattern that does not compile, the later entries do not change the error |
| AnchorDetector.FirstPatternErrorSnoc | src/analysis/anchor_detector.py:224-225 | one more entry keeps an earlier error, or else gives that entry's compile error, if any |
| AnchorDetector.LoadCustomRegistry | src/analysis/anchor_detector.py:243-247 | the table built from the registry's objects is `RegistryOf` of them: each object with a non-empty pattern and non-empty tags assigns its tags to its pattern, in file order |
| AnchorDetector.PutLookup | src/analysis/anchor_detector.py:247 | after a dict assignment the key maps to the new tags and every other key keeps its entry |
| AnchorDetector.PutKeys | src/analysis/anchor_detector.py:247 | a dict assignment keeps the keys in place, appending the key only when it is new |
| AnchorDetector.RegistryLookup | src/analysis/anchor_detector.py:243-247 | a pattern maps to the tags of the last registered object with that pattern, and is absent when no registered object has it |
| AnchorDetector.RegistryKeys | src/analysis/anchor_detector.py:243-247 | the table's keys are the registered patterns in the order each first appears |
| AnchorDetector.RegistryDistinct | src/analysis/anchor_detector.py:247 | the loaded table never holds a pattern twice |
| AnchorDetector.DetectAnchorsMerge | src/analysis/anchor_detector.py:90-128 | one anchor per tag; every detected tag is present; each kept anchor is the first any detector reported for its tag, and every such first anchor is kept |
| AnchorDetector.AnnotationsOnlyForJava | src/analysis/anchor_detector.py:101 | a path not ending in `.java` never gets an annotation anchor |
| AnchorDetector.CandidateNotAnnotation | src/analysis/anchor_detector.py:101-103 | outside `.java` paths none of the extension, SQL, code and custom detectors reports an annotation anchor |
| AnchorDetector.GetAnchorTags | src/analysis/anchor_detector.py:253-262 | each distinct tag of the anchors exactly once, and nothing else |
| AnchorDetector.ListTags | src/analysis/anchor_detector.py:262 | `list()` of a set gives each member exactly once |
| ResponseParser.ExtractJson | src/review/response_parser.py:55-82 | a fenced array wins, then a bare array of objects, then `[]` exactly when the text contains `[]`, else the empty string |
| ResponseParser.BuildAll | src/review/response_parser.py:39-46 | at most one finding per item, each of them a finding that passed construction |
| ResponseParser.BuildAllKeeps | src/review/response_parser.py:41-43 | every item that constructs contributes its finding |
| ResponseParser.ParsedFindings | src/review/response_parser.py:24-53 | no JSON text, a value that is not an array and a decode error all give no findings; every finding returned passed construction |
| ResponseParser.ParseFindings | src/review/response_parser.py:12-53 | the loop over the items returns `ParsedFindings`, skipping items that fail to construct |
| ResponseParser.FixSeverity | src/review/response_parser.py:101-104 | the severity becomes valid; a valid one is kept; nothing but the severity changes |
| ResponseParser.ValidatedSound | src/review/response_parser.py:95-106 | validation keeps at most every finding, and each kept one is a complete input finding with its severity fixed |
| ResponseParser.ValidatedComplete | src/review/response_parser.py:95-106 | every complete input finding is kept, with its severity fixed |
| ResponseParser.ValidatedFixed | src/review/response_parser.py:95-106 | findings that are all complete with valid severities pass unchanged |
| ResponseParser.ValidatedFixedPrefix | src/review/response_parser.py:95-106 | the same for every prefix of such findings |
| ResponseParser.ValidatedKeepsValid | src/review/response_parser.py:106 | a complete finding with a valid severity is appended as it is |
| ResponseParser.ValidatedIdempotent | src/review/response_parser.py:84-109 | validating twice is validating once |
| ResponseParser.ValidateFindings | src/review/response_parser.py:84-109 | the loop skips findings without file, rule or suggestion, sets other severities to `Medium`, and returns `Validated` of its input |
| Models.ChangeTypeName | src/models.py:112-114 | a change type is spelled `added`, `modified` or `deleted` |
| Models.MakeFileDiff | src/models.py:107-117 | a file diff is built exactly when both line counts are non-negative, and then holds the given values |
| Models.MakeFinding | src/models.py:57-65 | a finding is built exactly when file, rule, suggestion and a severity among High, Medium and Low are present; it keeps those values and the severity, keeps the line and category as given (none when absent), and keeps the code snippet, empty when absent |
| Models.DefaultReviewRequest | src/models.py:131-138 | a request naming only the id does not force a refresh |
| PromptBuilder.Get | src/review/prompt_builder.py:105 | `metadata.get(key)` finds a value exactly when the key is present, and it is that key's value |
| PromptBuilder.Chars | src/review/prompt_builder.py:116 | iterating over a string yields its characters one by one |
| PromptBuilder.JoinItems | src/review/prompt_builder.py:116 | `', '.join` of a metadata value fails exactly for a number; a string is joined character by character |
| PromptBuilder.JoinCharsInterleaves | src/review/prompt_builder.py:115-117 | joining a stored `applies_to` string puts `, ` between every two of its characters: character k lands at position 3k and the result is 3n-2 long |
| PromptBuilder.RuleHeading | src/review/prompt_builder.py:102-106 | the heading is `### Rule i`, followed by ` (category)` exactly when the category is truthy |
| PromptBuilder.SeverityLine | src/review/prompt_builder.py:111-112 | the severity line is present exactly when the severity is truthy |
| PromptBuilder.RenderRule | src/review/prompt_builder.py:98-122 | one rule's section fails exactly when its `applies_to` is a truthy number |
| PromptBuilder.RuleSectionShape | src/review/prompt_builder.py:102-120 | a rendered rule starts with its heading, a blank line and the severity line, and ends with the rule's text |
| PromptBuilder.RenderAllAt | src/review/prompt_builder.py:98-122 | rendering with positions counted from 1 succeeds exactly when every item renders, and then section i is item i rendered as number i+1 |
| PromptBuilder.RuleSectionsAt | src/review/prompt_builder.py:96-122 | the rule sections exist exactly when every rule renders, one per rule, rule i numbered i+1 |
| PromptBuilder.BuildContext | src/review/prompt_builder.py:84-124 | no rules give the fixed general-review text; otherwise the sections joined by the `---` separator; it fails exactly when some rule fails to render |
| PromptBuilder.DiffBody | src/review/prompt_builder.py:145 | the annotated content is shown unless it is absent or empty, then the raw diff |
| PromptBuilder.FileSectionShape | src/review/prompt_builder.py:137-146 | a file section starts with the file's heading and ends with its diff in a fenced `diff` block |
| PromptBuilder.BuildReviewPrompt | src/review/prompt_builder.py:43-82 | the prompt fails exactly when the context fails |
| PromptBuilder.PromptOrder | src/review/prompt_builder.py:66-80 | the prompt starts with the instructions, the rules context follows its heading, and the code changes follow theirs |
| PromptBuilder.PiecesInOrder | src/review/prompt_builder.py:66-80 | the pieces of a six-part concatenation sit at the sums of the lengths before them |
| CommentPoster.SeverityEmoji | src/bitbucket/comment_poster.py:73-79 | High, Medium and Low get their own emoji, and any other severity the fallback one |
| CommentPoster.EmojiDistinguishSeverities | src/bitbucket/comment_poster.py:73-79 | two different severities, one of them valid, never share an emoji |
| CommentPoster.FormatComment | src/bitbucket/comment_poster.py:116-145 | heading, blank line and suggestion; a blank line and the category line follow exactly when the category is non-empty |
| CommentPoster.JoinThree | src/bitbucket/comment_poster.py:145 | joining three lines by newlines puts a newline between each |
| CommentPoster.JoinFive | src/bitbucket/comment_poster.py:142-145 | joining five lines by newlines puts a newline between each |
| CommentPoster.InlineTextVersusFormat | src/bitbucket/comment_poster.py:81-85 | the posted inline text equals the formatted comment exactly when the finding has a non-empty category (otherwise it shows `None` or an empty name) |
| CommentPoster.Payload | src/bitbucket/comment_poster.py:90-98 | the request carries the finding's line and file, and its text ends with the category line |
| CommentPoster.SummaryTellsCount | src/bitbucket/comment_poster.py:162-168 | different non-zero counts give different summaries, none of which is the no-issues text |
| CommentPoster.SummaryShape | src/bitbucket/comment_poster.py:166-168 | a summary for a non-zero count is the head, the count in decimal and the tail |
| CommentPoster.SummaryNotNoIssues | src/bitbucket/comment_poster.py:163-166 | a non-zero count never gives the no-issues text |
| CommentPoster.MiddleInjective | src/bitbucket/comment_poster.py:166-167 | texts with the same head and tail are equal only when their middles are |
| CommentPoster.AcceptedBounds | src/bitbucket/comment_poster.py:35-43 | at most every finding is counted, and all of them exactly when every post is accepted |
| CommentPoster.PostFindings | src/bitbucket/comment_poster.py:20-58 | the count is the accepted posts; one request per finding in order; a summary with time 0.0 is attempted exactly when there are findings |
| CommentPoster.PostInline | src/bitbucket/comment_poster.py:32-41 | every finding's request is attempted in order whatever the others' outcome, and the count is the accepted ones |
| CommentPoster.PayloadsAt | src/bitbucket/comment_poster.py:35-38 | the requests are one per finding, request k for finding k |
| CommentPoster.AcceptedSnoc | src/bitbucket/comment_poster.py:36-41 | one more finding adds one to the count exactly when its post is accepted, and adds its request |
| DiffFetcher.AnnotateLines | src/bitbucket/diff_fetcher.py:136-164 | one output line per input line, line i being input line i annotated with the number reached before it: a parseable header resets the number, added and context lines are prefixed with it and advance it, removed lines are indented |
| DiffFetcher.AnnotateDiff | src/bitbucket/diff_fetcher.py:127-166 | the annotated text has exactly as many lines as the diff, and its lines are the annotated lines |
| DiffFetcher.AnnotatedLinesAt | src/bitbucket/diff_fetcher.py:139-164 | output line i depends only on input line i and the number reached before it |
| DiffFetcher.CounterAppend | src/bitbucket/diff_fetcher.py:139-159 | reading one more line moves the number as that line dictates |
| DiffFetcher.CounterWithinHunk | src/bitbucket/diff_fetcher.py:154-162 | between two positions without a header in between, the number grows by the count of added and context lines |
| DiffFetcher.RemovedLineUnnumbered | src/bitbucket/diff_fetcher.py:160-162 | a removed line is indented by four spaces and does not move the number |
| DiffFetcher.UnparsedHeaderKeepsNumber | src/bitbucket/diff_fetcher.py:143-151 | a header whose start does not parse is kept and the number carries on |
| DiffFetcher.HeaderResets | src/bitbucket/diff_fetcher.py:141-148 | a well-formed header `@@ -a,b +c,d ...` reads back its start `c`, is kept as it is, and resets the number to `c` |
| DiffFetcher.HeaderStartOf | src/bitbucket/diff_fetcher.py:144-148 | a well-formed header `@@ -a,b +c,d ...` reads back its start `c` |
| DiffFetcher.HeaderIsHeader | src/bitbucket/diff_fetcher.py:141 | a well-formed header starts with `@@` |
| DiffFetcher.HeaderThirdField | src/bitbucket/diff_fetcher.py:144-145 | the third space-separated field of a well-formed header is its new-file side `+c,d` |
| DiffFetcher.NewSideStart | src/bitbucket/diff_fetcher.py:146 | the new-file side `+c,d` reads back as the integer `c` |
| DiffFetcher.DigitsLack | src/bitbucket/diff_fetcher.py:144-146 | a decimal number holds no separator character |
| DiffFetcher.HunkNumbering | src/bitbucket/diff_fetcher.py:139-164 | after a header starting the new file at c, three added or context lines get c, c+1 and c+2 and a removed line is indented |
| DiffFetcher.NumberedStep | src/bitbucket/diff_fetcher.py:154-159 | an added or context line read at number c is prefixed with c and moves the number to c+1 |
| DiffFetcher.ExampleAnnotation | src/bitbucket/diff_fetcher.py:139-164 | after `@@ -10,3 +10,4 @@` a context, an added and a context line are numbered 10, 11 and 12 and the removed line is indented |
| DiffFetcher.ExampleLinesNumbered | src/bitbucket/diff_fetcher.py:154-160 | the example's lines are classified as context, added and removed |
| DiffFetcher.Numbered | src/bitbucket/diff_fetcher.py:154-159 | a line starting with a space or a plus sign gets a number |
| DiffFetcher.AnnotatedAppend | src/bitbucket/diff_fetcher.py:139-164 | reading one more line appends its annotation |
| DiffFetcher.IntToStringNoNewline | src/bitbucket/diff_fetcher.py:155 | a line number contains no line break |
| DiffFetcher.AnnotateLineNoNewline | src/bitbucket/diff_fetcher.py:155-164 | annotation adds no line break to a line |
| DiffFetcher.DetermineChangeType | src/bitbucket/diff_fetcher.py:168-183 | added exactly when the status is `added` or the section has `new file mode`; deleted exactly when not added and the status is `removed` or the section has `deleted file mode`; modified otherwise |
| DiffFetcher.ChangeTypeFromStatus | src/bitbucket/diff_fetcher.py:178-183 | without file-mode markers the diffstat status alone decides |
| DiffFetcher.NewFileMarkerWins | src/bitbucket/diff_fetcher.py:178 | a `new file mode` marker makes the file added whatever the status |
| DiffFetcher.StatMapKeys | src/bitbucket/diff_fetcher.py:74-82 | the diffstat map holds exactly the paths of entries with a `new` side, each mapped to the last entry naming it |
| DiffFetcher.StatMapDomain | src/bitbucket/diff_fetcher.py:75-78 | a path is in the map exactly when some entry's `new` side names it |
| DiffFetcher.StatMapLastEntry | src/bitbucket/diff_fetcher.py:77-82 | a path's entry is that of the last entry naming it |
| DiffFetcher.BuildStatMap | src/bitbucket/diff_fetcher.py:74-82 | the loop builds `StatMap`, failing with a key error for an entry whose `new` side has no path |
| DiffFetcher.StatMapFailureSticks | src/bitbucket/diff_fetcher.py:77 | once an entry has failed, the whole map fails |
| DiffFetcher.FirstHunk | src/bitbucket/diff_fetcher.py:104-107 | the position of the first line starting with `@@`, or the end: no header before it, a header at it |
| DiffFetcher.HunkLines | src/bitbucket/diff_fetcher.py:103-109 | the lines kept are exactly those from the first hunk header on |
| DiffFetcher.PathStripEatsLeadingB | src/bitbucket/diff_fetcher.py:94 | the path is stripped of leading `b` and `/` characters, not of a `b/` prefix: `b/b` followed by a name not starting with either loses its own first `b` |
| DiffFetcher.ParsedSectionShape | src/bitbucket/diff_fetcher.py:86-118 | a parsed record's path comes from the header; when the diffstat has the path, its counts are the diffstat's; otherwise they are zero and the change type uses status `modified`; its annotation is that of its content |
| DiffFetcher.NullCountSkipsSection | src/bitbucket/diff_fetcher.py:75-81 | a section whose diffstat entry has a null count yields no record, because building the record fails validation and the section is skipped (lines 111-123) |
| DiffFetcher.ParseSectionsBound | src/bitbucket/diff_fetcher.py:84-123 | each section yields at most one record, and every record comes from some section |
| DiffFetcher.ParseDiff | src/bitbucket/diff_fetcher.py:58-125 | the result is `ParsedDiff`: the diffstat failure, or one record per parseable section after `diff --git`, in order, fewer than the split pieces |
| DiffFetcher.ParseFileSection | src/bitbucket/diff_fetcher.py:86-120 | one section gives the record that the section's header, diffstat entry and hunk lines determine, or nothing when its header has fewer than two fields or the record fails validation |
| Chunker.MakeConfig | src/ingestion/chunker.py:25-26 | a given non-zero chunk size or overlap is kept; a missing or zero one falls back to the settings' value |
| Chunker.Tokens | src/ingestion/chunker.py:310-321 | the estimate is the length divided by four, rounded down: `4n <= len < 4n + 4` |
| Chunker.OverlapCorrect | src/ingestion/chunker.py:166-186 | the overlap is a suffix of the paragraphs whose tokens fit in the overlap budget, and the paragraph just before it would have pushed it over the budget |
| Chunker.OverlapSuffix | src/ingestion/chunker.py:177-186 | the overlap is made of the last paragraphs of the chunk, in order |
| Chunker.OverlapExtend | src/ingestion/chunker.py:181-184 | taking one more paragraph from the end, when it fits, keeps the overlap a suffix within the budget |
| Chunker.GetOverlapParagraphs | src/ingestion/chunker.py:177-186 | the backwards loop returns exactly the overlap that the recursive definition specifies |
| Chunker.TokenSumCons | src/ingestion/chunker.py:183-184 | prepending a paragraph to the overlap adds its token estimate to the running size |
| Chunker.Paragraphs | src/ingestion/chunker.py:139 | splitting at blank lines always yields at least one paragraph |
| Chunker.RunSize | src/ingestion/chunker.py:141-158 | the running size always equals the token sum of the current chunk, and after any paragraph the current chunk is non-empty |
| Chunker.StepSize | src/ingestion/chunker.py:150-158 | one paragraph keeps the running size equal to the token sum of the current chunk, and leaves the chunk non-empty |
| Chunker.RunCurrent | src/ingestion/chunker.py:145-158 | the current chunk is always the last paragraphs read, consecutive and in order |
| Chunker.StepCurrent | src/ingestion/chunker.py:148-158 | on overflow the kept overlap plus the new paragraph, and otherwise the extended chunk, are again the last paragraphs read |
| Chunker.MadeOfPrefix | src/ingestion/chunker.py:145-155 | a run of consecutive paragraphs among the first ones read is a run of the whole section |
| Chunker.RunChunks | src/ingestion/chunker.py:148-155 | every chunk emitted on overflow is a run of consecutive paragraphs of the section, in order, joined by blank lines |
| Chunker.StepChunks | src/ingestion/chunker.py:150-155 | the chunk emitted on overflow is a run of consecutive paragraphs read so far, and the earlier ones stay so |
| Chunker.MadeOfSuffix | src/ingestion/chunker.py:152 | a non-empty current chunk, joined by blank lines, is a run of consecutive paragraphs |
| Chunker.LargeSectionChunksMadeOfParagraphs | src/ingestion/chunker.py:129-164 | a split section yields at least one chunk, and each chunk is a run of consecutive paragraphs of the section, in order, joined by blank lines |
| Chunker.RunFits | src/ingestion/chunker.py:145-158 | while the paragraphs' total fits in the chunk size, nothing is emitted and every paragraph is gathered into the current chunk |
| Chunker.LargeSectionFits | src/ingestion/chunker.py:129-164 | a section whose paragraphs fit in one chunk comes back as one chunk equal to the section's text |
| Chunker.SplitLargeSection | src/ingestion/chunker.py:129-164 | the paragraph loop, with overflow emission, overlap carry-over and the final flush, returns exactly the chunks of the specification `LargeSectionChunks` |
| Chunker.SectionEnd | src/ingestion/chunker.py:117 | a section ends at the next header's start or at the end of the text, never before its own header's end |
| Chunker.SplitByHeaders | src/ingestion/chunker.py:87-127 | without header matches the result is the one whole-text section at level 1 (titled from the first 50 characters, or `root` for empty text); with matches there is one section per header, in order |
| Chunker.HeaderSections | src/ingestion/chunker.py:111-125 | the loop over the matches builds the `k`-th section from the `k`-th match, for every `k` |
| Chunker.ReadSection | src/ingestion/chunker.py:112-123 | one iteration reads the stripped title, the level from the number of `#`, and the stripped text up to the next header |
| Chunker.SectionAtShape | src/ingestion/chunker.py:111-125 | a header section is at level 2 or 3, its text is a piece of the text between its header and the next, and its text and title carry no surrounding whitespace |
| Chunker.CategoryShape | src/ingestion/chunker.py:220-221 | a category never contains `_`, and a file stem without `_` or `-rules` is its own category |
| Chunker.UnderscoresReplaced | src/ingestion/chunker.py:221 | replacing `_` by `-` leaves no `_`, and leaves a string without `_` as it is |
| Chunker.ReplaceAbsent | src/ingestion/chunker.py:221 | replacing a pattern that does not occur leaves the text unchanged |
| Chunker.StrippedAll | src/ingestion/chunker.py:216 | every comma-separated tag is stripped, in order, none dropped |
| Chunker.MetadataKeysDistinct | src/ingestion/chunker.py:198-225 | the seven metadata keys are pairwise different, so no entry overwrites another |
| Chunker.MetadataOf | src/ingestion/chunker.py:198-225 | title, level, source file, category and keywords are always present with their values; severity and applies_to are present exactly when found |
| Chunker.ExtractMetadata | src/ingestion/chunker.py:188-227 | the metadata of a section: its title, level and file, the category from the file stem, the joined keywords; the severity, capitalised, exactly when the severity pattern matched; the stripped, re-joined "Applies to" list exactly when that pattern matched |
| Chunker.SeverityCapitalized | src/ingestion/chunker.py:207-209 | whatever mix of ASCII upper and lower case the matched severity word is written in, the stored value is `High`, `Medium` or `Low` |
| Chunker.CapitalizedSeverity | src/ingestion/chunker.py:209 | capitalising `high`, `medium` or `low` gives a valid severity |
| Chunker.ChunkIdKey | src/ingestion/chunker.py:303-305 | the hashed key starts with `file:title`, and is exactly that for an unsplit section |
| Chunker.ChunkIdKeysDiffer | src/ingestion/chunker.py:303-305 | pieces of one split section with different indices get different keys |
| Chunker.CreateChunk | src/ingestion/chunker.py:256-284 | the chunk carries the given text, metadata and file, and its id is the first twelve hex digits of the digest of its key |
| Chunker.Take12 | src/ingestion/chunker.py:307-308 | the id is twelve characters long, or the whole digest when that is shorter |
| Chunker.Pieces | src/ingestion/chunker.py:64-74 | the `i`-th piece of a split section becomes a chunk keyed by index `i`, one chunk per piece |
| Chunker.SectionChunks | src/ingestion/chunker.py:60-82 | a section within the chunk size becomes one chunk with its whole text keyed by its title alone; a larger one becomes as many chunks as it splits into |
| Chunker.AppendPieces | src/ingestion/chunker.py:66-74 | the inner loop appends exactly the numbered pieces to the chunks so far |
| Chunker.AllChunksCover | src/ingestion/chunker.py:56-82 | every section yields at least one chunk, and every chunk names the file it came from |
| Chunker.ChunkSection | src/ingestion/chunker.py:58-82 | one iteration of the section loop produces exactly that section's chunks |
| Chunker.ChunkMarkdown | src/ingestion/chunker.py:44-85 | the chunks of a document are the chunks of its sections, in order |
| Chunker.ChunkSections | src/ingestion/chunker.py:56-82 | the loop over the sections concatenates their chunks in order |
| Chunker.AllChunksSnoc | src/ingestion/chunker.py:56-82 | one more section appends exactly that section's chunks |
| Chunker.ChunkCount | src/ingestion/chunker.py:44-85 | a document yields at least one chunk per header, and at least one when it has no header |
| Text.StartsWithFirst | src/bitbucket/diff_fetcher.py:154 | a one-character prefix such as `+` is decided by the line's first character |
| Text.NotStartsWithFirst | src/bitbucket/diff_fetcher.py:141 | a line whose first character differs from the prefix's does not start with it |
| Text.ContainsIff | src/workflow/review_graph.py:261 | `sub in s` holds exactly when `sub` occurs at some position of `s` |
| Text.Split | src/bitbucket/diff_fetcher.py:87 | `s.split(sep)` always yields at least one piece |
| Text.SplitPiecesLackSep | src/bitbucket/diff_fetcher.py:139 | no piece of `s.split(sep)` contains the separator |
| Text.SplitWithoutSep | src/ingestion/chunker.py:216 | a string without the separator splits into itself alone |
| Text.SplitAround | src/bitbucket/diff_fetcher.py:139 | splitting distributes over one occurrence of the separator |
| Text.JoinSplit | src/bitbucket/diff_fetcher.py:87 | joining the pieces of `s.split(sep)` with `sep` gives `s` back |
| Text.SplitJoin | src/bitbucket/diff_fetcher.py:113 | splitting a joined text at the separator gives back the parts when no part contains it |
| Text.SplitOn | src/ingestion/chunker.py:139 | splitting at a multi-character separator yields at least one piece |
| Text.JoinSplitOn | src/ingestion/chunker.py:139 | joining the pieces of `s.split(sep)` with `sep` gives `s` back, for any non-empty separator |
| Text.Word | src/bitbucket/diff_fetcher.py:92 | a word is the longest white-space-free prefix of the text |
| Text.Words | src/bitbucket/diff_fetcher.py:92 | `s.split()` yields only non-empty words |
| Text.LStripChars | src/bitbucket/diff_fetcher.py:94 | `lstrip(chars)` removes the longest prefix made of characters in the set, whichever order they come in |
| Text.TrimStart | src/ingestion/chunker.py:119 | the left strip is a suffix of the text that does not start with white space |
| Text.TrimEnd | src/ingestion/chunker.py:119 | the right strip is a prefix of the text that does not end with white space |
| Text.StripTrims | src/ingestion/chunker.py:112 | `strip()` leaves a piece of its argument that neither starts nor ends with white space |
| Text.StripUnchanged | src/workflow/review_graph.py:257 | a text that neither starts nor ends with white space is its own strip |
| Text.ReplaceCharAt | src/ingestion/chunker.py:221 | replacing one character by another keeps the length and changes exactly the positions holding that character |
| Text.ReplaceAbsentChar | src/bitbucket/diff_fetcher.py:146 | removing a character that does not occur changes nothing |
| Text.LowerAscii | src/analysis/anchor_detector.py:142 | lower-casing ASCII letters keeps the length and lowers each ASCII letter, leaving every other character as it is |
| Text.Capitalize | src/ingestion/chunker.py:209 | `capitalize()` on ASCII letters upper-cases the first character and lower-cases the rest |
| Text.CapitalizeIgnoresCase | src/ingestion/chunker.py:209 | capitalising gives the same word whatever case it was written in |
| Text.LineCountZero | src/workflow/partitioner.py:41 | `len(s.splitlines())` is zero exactly for the empty text |
| Text.NatToString | src/workflow/reporter.py:51 | `str(n)` is a non-empty run of decimal digits |
| Text.ParseNatToString | src/main.py:229 | reading back the digits of `str(n)` gives `n` |
| Text.ParseIntToString | src/bitbucket/diff_fetcher.py:146 | `int(str(i)) == i` for every integer, negative ones included |
| Text.ParseIntUnsigned | src/bitbucket/diff_fetcher.py:146 | a text with no surrounding space and no sign is read as its digit groups |
| Text.ParseIntUnderscores | src/bitbucket/diff_fetcher.py:146 | `int()` accepts one underscore between digits and ignores it |
| Text.ParseIntUnderscoresRefused | src/bitbucket/diff_fetcher.py:146 | `int()` refuses two underscores in a row, and a leading or trailing underscore |
| Text.NatToStringInjective | src/workflow/reporter.py:51 | different numbers print differently |
| Text.Stem | src/ingestion/chunker.py:220 | a name is its stem followed by its suffix |
| Text.Suffix | src/ingestion/chunker.py:220 | a suffix is empty or starts at a dot that neither starts nor ends the name, and ends the name |
| Wrappers.OrDefault | src/ingestion/chunker.py:25-26 | `value or default`: a missing or zero value falls back to the default, any other value is kept |
| Reporter.BaseNameOfJoin | src/workflow/reporter.py:51 | joining a separator-free name onto a directory puts exactly one separator between them, and the base name of the result is the name |
| Reporter.ReportDirNamesDiffer | src/workflow/reporter.py:32-33 | runs started in the same second for different pull requests get different directory names |
| Reporter.ArtifactNamesRelative | src/workflow/reporter.py:65-172 | the nine artifact names are relative, so joining them never replaces the directory |
| Reporter.ChunkFileShape | src/workflow/reporter.py:51-65 | a chunk's artifact lives at `<run dir>/chunk_<n>/<name>` |
| Reporter.DigitPrefixBeforeSlash | src/workflow/reporter.py:51 | the digits of a chunk number end at the separator that follows them |
| Reporter.DigitsThenName | src/workflow/reporter.py:51-65 | from `<digits>/<name>` both the digits and the name can be read back |
| Reporter.ChunkFilesDistinct | src/workflow/reporter.py:41-172 | within a run directory, artifacts of different chunks, different artifacts of one chunk and the status record all have different paths |
| Reporter.ChunkFileNotStatus | src/workflow/reporter.py:172 | no chunk artifact is the run's status record |
| Reporter.ReviewReporter.constructor | src/workflow/reporter.py:12-20 | no files are written yet and the base directory exists |
| Reporter.ReviewReporter.CreateReportDir | src/workflow/reporter.py:22-39 | the run directory is `<base>/<timestamp>_<pr id>` and exists afterwards; no file changes |
| Reporter.ReviewReporter.GetChunkDir | src/workflow/reporter.py:41-54 | the chunk directory is `<run dir>/chunk_<n>` and exists afterwards, with its run directory; no file changes |
| Reporter.ReviewReporter.SaveArtifact | src/workflow/reporter.py:56-163 | one artifact is written at its path in the chunk's directory and every other file is kept |
| Reporter.ReviewReporter.SaveChunkData | src/workflow/reporter.py:56-69 | the chunk's diffs are written to `diffs.json` and every other file is kept |
| Reporter.ReviewReporter.SaveAnchors | src/workflow/reporter.py:71-84 | the anchors are written to `anchors.json` and every other file is kept |
| Reporter.ReviewReporter.SaveRules | src/workflow/reporter.py:86-99 | the rules are written to `rules.json` and every other file is kept |
| Reporter.ReviewReporter.SavePrompt | src/workflow/reporter.py:101-113 | the prompt text is written to `prompt.txt` and every other file is kept |
| Reporter.ReviewReporter.SaveResponse | src/workflow/reporter.py:115-133 | the raw text goes to `raw_response.txt`, then the parsed findings to `parsed_response.json`; every other file is kept |
| Reporter.ReviewReporter.SaveComments | src/workflow/reporter.py:135-148 | the findings are written to `posted_comments.json` and every other file is kept |
| Reporter.ReviewReporter.SavePossibleComments | src/workflow/reporter.py:150-163 | the findings are written to `possible_comments.json` and every other file is kept |
| Reporter.ReviewReporter.SaveStatus | src/workflow/reporter.py:165-174 | the status record replaces `status.json` in the run directory; no directory is created |
| ReviewGraph.ReviewWorkflow.DetectAnchorsNode | src/workflow/review_graph.py:86-115 | the state afterwards is `Detected` of the state before: the anchors of every file, merged per file and appended in file order, their distinct tags, status `anchors_detected`; or, when a custom pattern does not compile, the error with status `error` |
| ReviewGraph.DetectAll | src/workflow/review_graph.py:100-107 | the loop over the files appends each file's detected anchors, in file order, and stops at the first file whose detection fails, with that error |
| ReviewGraph.FileDetection | src/workflow/review_graph.py:102-104 | one more file either fails the whole detection with its error or appends its anchors |
| ReviewGraph.DetectionPrefix | src/workflow/review_graph.py:100-113 | once a file's detection has failed, the later files change nothing |
| ReviewGraph.AllAnchorsSnoc | src/workflow/review_graph.py:100-107 | one more file appends exactly that file's anchors |
| ReviewGraph.DetectedTags | src/workflow/review_graph.py:106-108 | after successful detection the tags are the anchors' tags, each exactly once |
| ReviewGraph.DetectionFailure | src/workflow/review_graph.py:97-113 | detection ends in `error` exactly when there is a file and some custom pattern does not compile; the error is the first such pattern's, and the anchors are left as they were |
| ReviewGraph.DefaultDetectorNeverFails | src/workflow/review_graph.py:44 | the workflow's detector has no registry file (src/analysis/anchor_detector.py:76-79), so detection always ends `anchors_detected` with the anchors of every file |
| ReviewGraph.ReviewWorkflow.RetrieveRulesNode | src/workflow/review_graph.py:117-146 | the state afterwards is `RulesRetrieved` of the state before: no tags means no rules without asking the store; otherwise the retrieved rules, or the error recorded with status `error` |
| ReviewGraph.EmptyTagsSkipRetrieval | src/workflow/review_graph.py:133-135 | without tags the rules are empty, the status is `rules_retrieved` and nothing else changes |
| ReviewGraph.ReviewWorkflow.BuildPromptNode | src/workflow/review_graph.py:148-171 | the state afterwards holds the built prompt with status `prompt_built`, or the builder's error with status `error` |
| ReviewGraph.ReviewWorkflow.GenerateReviewNode | src/workflow/review_graph.py:173-193 | the state afterwards holds the model's response with status `review_generated`, or the error with status `error` |
| ReviewGraph.ReviewWorkflow.ParseResponseNode | src/workflow/review_graph.py:195-216 | the state afterwards holds the parsed and validated findings with status `response_parsed` |
| ReviewGraph.ReviewWorkflow.VerifyFindingsNode | src/workflow/review_graph.py:218-288 | the state afterwards holds the verified findings with status `findings_verified`, or only the status `verification_failed` when verification raised |
| ReviewGraph.VerificationKeepsFindings | src/workflow/review_graph.py:232-281 | successful verification keeps every finding, regrouped by file as a permutation, changing at most each finding's line |
| ReviewGraph.VerificationFailureKeepsState | src/workflow/review_graph.py:283-286 | verification ends `verification_failed` exactly when it raised, and then only the status changes: findings and `error` are kept |
| ReviewGraph.ReviewWorkflow.PostCommentsNode | src/workflow/review_graph.py:290-314 | with posting switched off the step only sets the status to `complete` |
| ReviewGraph.ReviewWorkflow.RunNode | src/workflow/review_graph.py:57-84 | running one node changes the state exactly as that node's step specifies |
| ReviewGraph.ReviewWorkflow.Invoke | src/workflow/review_graph.py:75-84 | invoking the graph runs the seven nodes from the entry along the edges to the end: the state afterwards is `Pipeline` of the state before |
| ReviewGraph.StepKeeps | src/workflow/review_graph.py:86-314 | no step changes the pull request, the commit, the diffs or the report directory |
| ReviewGraph.WalkKeeps | src/workflow/review_graph.py:75-82 | any sequence of steps keeps the pull request, the commit, the diffs and the report directory |
| ReviewGraph.PipelineCompletes | src/workflow/review_graph.py:75-82 | every run of the graph ends with status `complete`, whatever failed on the way, and keeps the pull request, commit, diffs and report directory |
| ReviewGraph.StepKeepsOrFails | src/workflow/review_graph.py:86-314 | a step keeps `error`, unless it is anchor detection, retrieval, prompt building or generation and it ended with status `error` |
| ReviewGraph.WalkErrorFromFailure | src/workflow/review_graph.py:75-82 | along any walk `error` changes only if some step that can fail ended with status `error` |
| ReviewGraph.ReviewState.constructor | src/workflow/review_graph.py:21-34 | the state dictionary holds exactly the given values |
| ReviewGraph.ChunkResults | src/workflow/review_graph.py:375-397 | one graph result per chunk |
| ReviewGraph.LogsSnoc | src/workflow/review_graph.py:411-416 | one more chunk appends its `Chunk i error: ...; ` text, if any, and its findings |
| ReviewGraph.ErrorLogEmpty | src/workflow/review_graph.py:411-413 | the collected error text is empty exactly when no chunk reported an error |
| ReviewGraph.AllFindingsFromChunks | src/workflow/review_graph.py:415-416 | a finding is in the run's findings exactly when it is in some chunk's findings, and there are none exactly when no chunk has any |
| ReviewGraph.ReviewWorkflow.ProcessChunk | src/workflow/review_graph.py:375-426 | one chunk's iteration returns the graph's result for the chunk, writes its diffs and six result artifacts in its directory, then the progress record |
| ReviewGraph.ReviewWorkflow.ProcessChunks | src/workflow/review_graph.py:375-426 | the chunk loop collects the chunks' error texts and findings in order and leaves every chunk's iteration's writes |
| ReviewGraph.ReviewWorkflow.LocateReportDir | src/workflow/review_graph.py:354-360 | without a given name a new run directory is created under the base directory and its base name recorded; a given name is used under the base directory |
| ReviewGraph.ReviewWorkflow.ReviewFetched | src/workflow/review_graph.py:351-439 | after both fetches: the partition, the start record, every chunk's iteration and the end record, with the errors and findings of all chunks |
| ReviewGraph.ReviewWorkflow.Run | src/workflow/review_graph.py:316-455 | the final state is `RunResult` and the files and directories are `RunFiles` and `RunDirs` of those before |
| ReviewGraph.RunFetchFailure | src/workflow/review_graph.py:343-348 | a failed diff or metadata fetch ends the run in `error` with the fetch's message and no findings, before any file or directory is written |
| ReviewGraph.RunStatus | src/workflow/review_graph.py:428-429 | after both fetches the run ends `complete` exactly when no chunk reported an error, else `partial_error`, with all chunks' findings and the full diff |
| ReviewGraph.EmptyDiffCompletes | src/workflow/review_graph.py:351-439 | an empty diff gives no chunks: the run completes with no findings and no error, and the end record is the only file written |
| ReviewGraph.ChunkWriteStores | src/workflow/review_graph.py:379-409 | a chunk's iteration leaves each of its seven artifacts holding what it wrote |
| ReviewGraph.StoresDiffs | src/workflow/review_graph.py:379 | the diffs file survives the rest of its chunk's iteration |
| ReviewGraph.StoresAnchors | src/workflow/review_graph.py:400 | the anchors file survives the rest of its chunk's iteration |
| ReviewGraph.StoresRules | src/workflow/review_graph.py:401 | the rules file survives the rest of its chunk's iteration |
| ReviewGraph.StoresPrompt | src/workflow/review_graph.py:402 | the prompt file survives the rest of its chunk's iteration |
| ReviewGraph.StoresRawResponse | src/workflow/review_graph.py:403-408 | the raw response survives the rest of its chunk's iteration |
| ReviewGraph.StoresParsedResponse | src/workflow/review_graph.py:403-408 | the parsed response survives the rest of its chunk's iteration |
| ReviewGraph.StoresPossibleComments | src/workflow/review_graph.py:409 | the possible comments survive the progress record that follows |
| ReviewGraph.ChunkWriteKeepsOther | src/workflow/review_graph.py:375-426 | another chunk's iteration leaves a chunk's artifact as it was |
| ReviewGraph.ChunkWritesStore | src/workflow/review_graph.py:379-426 | after a chunk's iteration all seven of its artifacts hold what it wrote |
| ReviewGraph.ChunkWritesKeep | src/workflow/review_graph.py:375-426 | a later chunk's iteration keeps an earlier chunk's seven artifacts |
| ReviewGraph.FilesAfterChunksKeep | src/workflow/review_graph.py:375-426 | after `k` chunks every chunk before `k` still has its seven artifacts |
| ReviewGraph.StatusWriteKeeps | src/workflow/review_graph.py:432-439 | rewriting the status record keeps every chunk's artifacts |
| ReviewGraph.AllChunksKept | src/workflow/review_graph.py:375-439 | every chunk's artifacts survive the later chunks and the final status record |
| ReviewGraph.RunArtifactsKept | src/workflow/review_graph.py:351-439 | after a run every chunk's seven artifacts are in the run directory with that chunk's diffs and graph results, and the status record there is the final one, `complete` or `partial_error` with the collected errors |
| ReviewGraph.DetectionAsWrittenFails | src/workflow/review_graph.py:101 | as written, awaiting the synchronous detector's list raises on the first file, so every chunk's detection ends in `error` with no anchors |
| ReviewGraph.RetrievalAsWrittenFails | src/workflow/review_graph.py:130-132 | as written, reading the undefined `force_use_all_rules` setting raises, so retrieval fails even without tags, where the intended step uses no rules |
| ReviewGraph.RunAsWrittenRaises | src/workflow/review_graph.py:363-369 | as written, `time` is never imported, so every run whose fetches succeed raises out of `run` (again in the handler at 448-452), where it should end `complete` or `partial_error` |
| ReviewGraph.ReportDirNamePlain | src/workflow/reporter.py:32 | a generated run directory name is non-empty and has no separator |
| ReviewGraph.ArtifactsAsWrittenOutsideRunDir | src/workflow/review_graph.py:379-409 | as written, chunk artifacts are saved under the run directory's bare name, a different path from the run directory under the base directory where the status record and the results page look |
| ReviewGraph.ReviewWorkflow.constructor | src/workflow/review_graph.py:39-54 | the workflow holds the given collaborators, reporter and partition size |
| FindingVerifier.FileOrderCorrect | src/workflow/review_graph.py:232-237 | the grouping lists each file once, and exactly the files the findings name |
| FindingVerifier.ForFileAppend | src/workflow/review_graph.py:234-237 | a file's findings in a concatenation are its findings in each part, in order |
| FindingVerifier.ForFileOfForFile | src/workflow/review_graph.py:234-237 | selecting one file's findings twice is the same as once, and selecting another file's gives nothing |
| FindingVerifier.ForFileAbsent | src/workflow/review_graph.py:234-237 | a file no finding names has no findings |
| FindingVerifier.ForFileGrouped | src/workflow/review_graph.py:232-239 | visiting the groups of distinct files gives each listed file exactly its findings, in their order |
| FindingVerifier.RegroupPerFile | src/workflow/review_graph.py:232-239 | regrouping keeps every file's findings in their original order |
| FindingVerifier.GroupedSnoc | src/workflow/review_graph.py:234-237 | one more finding adds exactly one element to the groups of its file |
| FindingVerifier.GroupedPermutation | src/workflow/review_graph.py:232-239 | grouping by a list covering all the findings' files is a permutation of the findings |
| FindingVerifier.GroupedEmpty | src/workflow/review_graph.py:232-239 | no findings give no groups |
| FindingVerifier.RegroupPermutation | src/workflow/review_graph.py:232-239 | regrouping by file loses and adds nothing: it is a permutation of the findings |
| FindingVerifier.FirstLineWith | src/workflow/review_graph.py:264-270 | the search finds the 1-based number of the first line containing the snippet, and finds nothing exactly when no line contains it |
| FindingVerifier.CorrectLineMoves | src/workflow/review_graph.py:249-278 | verification changes only the line, and changes it exactly when the finding quotes code, its reported line does not hold it and some other line does; the new line is the first one holding it |
| FindingVerifier.CorrectLineFound | src/workflow/review_graph.py:259-278 | a finding whose stripped snippet is found ends on a line that holds it |
| FindingVerifier.CorrectLineIdempotent | src/workflow/review_graph.py:249-278 | verifying an already verified finding against the same file changes nothing |
| FindingVerifier.BlankSnippetLandsOnFirstLine | src/workflow/review_graph.py:257-270 | a snippet of white space alone strips to the empty text, which every line contains: without a usable reported line the finding moves to line 1 |
| FindingVerifier.SearchLines | src/workflow/review_graph.py:264-270 | the search loop returns the first line holding the snippet, or -1 when none does |
| FindingVerifier.CorrectFinding | src/workflow/review_graph.py:249-278 | the loop body for one finding returns the finding as the specification `CorrectLine` re-anchors it |
| FindingVerifier.VerifiedGroup | src/workflow/review_graph.py:242-278 | a file's group keeps its length and each finding with at most its line changed; empty content keeps the group as it is |
| FindingVerifier.VerifiedGroupsShape | src/workflow/review_graph.py:239-278 | when every fetch succeeds the verified findings are the grouped findings with at most their lines changed |
| FindingVerifier.VerifiedKeepsFindings | src/workflow/review_graph.py:230-281 | a successful verification returns the findings regrouped by file, each with at most its line changed: nothing dropped, added or reworded |
| FindingVerifier.FailureSticks | src/workflow/review_graph.py:239-286 | once a fetch has raised, the remaining files do not change the outcome |
| FindingVerifier.GroupByFile | src/workflow/review_graph.py:232-237 | the grouping loop yields the files in first-appearance order, and for each file exactly its findings in order |
| FindingVerifier.CorrectGroup | src/workflow/review_graph.py:249-278 | the inner loop re-anchors each finding of a group in turn |
| FindingVerifier.VerifyFindings | src/workflow/review_graph.py:218-288 | the step's loop returns exactly the specification `Verified`: the re-anchored findings, or the failure that aborted it |
| FindingVerifier.FetchFileContent | src/bitbucket/file_fetcher.py:18-41 | fetching a file never raises: it gives the response body, or empty text when the request fails |
| FindingVerifier.VerifiedGroupsTotal | src/workflow/review_graph.py:239-245 | when no fetch fails, verifying any list of files succeeds |
| FindingVerifier.VerifiedWithFetcher | src/bitbucket/file_fetcher.py:18-41 | with the repository's file fetcher verification always succeeds; a file whose request failed keeps its findings unchanged, in order |
| FindingVerifier.VerifiedGroupsEmptyContent | src/workflow/review_graph.py:242-245 | a file whose content came back empty keeps exactly its findings, unchanged and in order, among the verified ones |
| FindingVerifier.VerifiedGroupsSnoc | src/workflow/review_graph.py:238-278 | a successful verification of one more file appends that file's verified group to the earlier files' |
| FindingVerifier.EmptyContentSame | src/workflow/review_graph.py:242-245 | a file's group fetched empty contributes exactly that file's findings |
| FindingVerifier.OtherGroupStep | src/workflow/review_graph.py:238-278 | another file's group leaves a file's verified findings as they were |
| FindingVerifier.VerifiedGroupOtherFile | src/workflow/review_graph.py:247-278 | verifying one file's group adds nothing to another file's findings |
| FindingVerifier.ForFileMember | src/workflow/review_graph.py:232-236 | every finding is among its own file's findings |
| FindingVerifier.AsWrittenGroupsNeverCorrect | src/workflow/review_graph.py:250 | as written, a successful verification of any list of files only regroups the findings |
| FindingVerifier.AsWrittenNeverCorrects | src/workflow/review_graph.py:250 | as written, verification fails or returns the findings merely regrouped: no line is ever corrected |
| FindingVerifier.AsWrittenFailsOnContent | src/workflow/review_graph.py:250 | as written, one finding in a file with any content makes verification fail on the missing `code_snippet` attribute, where the corrected step succeeds |

## Left out

- Network and file input and output are left out:
  - the Bitbucket requests of `fetch_pr_diff` and `get_pr_metadata` (their results are `Run`'s parameters);
  - the HTTP requests of the file fetcher and the comment poster;
  - `chunk_file` (reads a file before `chunk_markdown`);
  - the file read and the JSON decoding of `_load_custom_registry`: its loop over the decoded objects is `AnchorDetector.LoadCustomRegistry`, whose input is the registry's objects with a missing pattern or missing tags written as empty; an entry that is not an object, which stops the load, is not modelled.
- Left out as library calls:
  - regular expressions, `json.loads`/`json.dumps`, MD5 and HMAC are parameters whose results the model takes as given;
  - `_extract_keywords` is the `keywords` parameter of the chunker, because it is a regex search whose result is a set;
  - `Path(...).stem` of a headerless text's first 50 characters is the `stem` parameter, because that text is not a path.
- `src/main.py`, `src/review/llm_client.py`, `src/ingestion/embedder.py`, `src/ingestion/vector_store.py`, `src/ingestion/ingest_cli.py`, `src/config.py` and `src/logger.py` are not part of this model: they are endpoints, provider SDKs, external stores, configuration loading and logging. Their values arrive as parameters.
- `Retriever.expand_related_rules` is not modelled: nothing calls it, and it calls the asynchronous `retrieve_rules` without awaiting it.
- `PromptBuilder.build_simple_prompt` is not modelled: nothing in the core calls it.
- Floating-point arithmetic is left out: confidences and scores are scaled integers, so two scores closer than a thousandth compare as the fixed-point values do.
- Time is left out:
  - the clock is the `timestamp` (already formatted as `%Y%m%d_%H%M%S`) and `now` parameters, one reading per run;
  - the processing time in the summary comment is the placeholder the source passes.
- Iteration order of a Python set is left out:
  - `AnchorDetector.ListTags`: the order of `list(set)` is a parameter, constrained only to list each member once;
  - `ReviewGraph.DetectedTags` needs the same assumption about the ordering parameter.
- Concurrency and mutation are left out:
  - `async`/`await` scheduling and concurrent runs;
  - `finding.line` is updated in place in the source; the model builds a new finding, so aliasing between the parsed and the verified lists is not captured.
  - Logging is left out.
- `Reporter.ReviewReporter.CreateReportDir`: `os.makedirs` also creates missing intermediate directories; the model records only the directory asked for. Write failures are not modelled.
- `ReviewGraph.ReviewWorkflow.Run`: the outer exception handler's error record is not modelled. In the corrected run nothing raises after the fetches except a failed write, and writes are not modelled. The final state is built after the chunk loop, as the source does.
- `FindingVerifier.VerifyFindings`: the fetch parameter may fail, standing for an exception escaping the fetch. With the repository's fetcher it never does (`FindingVerifier.VerifiedWithFetcher`).
- `CommentPoster.PostFindings`: posting is switched off in the graph; the poster's policy is modelled on its own. The emoji are the code points the source file holds.
- `ManualReviewHandler.ValidateRequest` is a predicate; its contract is stated by `ManualReviewHandler.DefaultRequests`.
- `WebhookHandler.ParsePrEvent`: a payload that is not an object, and a field holding a JSON value of another type than the one read (a list where an object is read, a number where a text is), are not modelled; neither is pydantic's coercion of such values (an id written as `"7"` or `7.0`). An absent, `null` or empty `pullrequest` object is modelled.
- `Text.LowerAscii`: Python's `str.lower()` also maps non-ASCII letters, some to two characters (`'İ'`); the model lowers ASCII letters only.
- `Text.Capitalize`: Python's `str.capitalize()` also maps non-ASCII letters (`'HİGH'` gives `'Hi̇gh'`); the model maps ASCII letters only.
- `Chunker.SeverityCapitalized`: the severity search ignores case in the Unicode sense, so it also matches words such as `hıgh` and `HİGH`, which capitalise to text that is not a valid severity; the lemma covers words written in ASCII letters only.
- `DiffFetcher.AnnotateLines`: a hunk start written in non-ASCII decimal digits, which Python's `int()` accepts, counts as unparseable, so the number is left unchanged rather than reset.
- `DiffFetcher.AnnotateDiff`: the same non-ASCII digit case as `AnnotateLines`.
- `Text.ParseInt`: accepts ASCII digits with single underscores between them, surrounding whitespace and a sign; digits of other scripts are not accepted.
- `DiffFetcher.StatItem`: a diffstat count is absent, null or an integer; a count of another JSON type, which the record's validation might coerce or refuse, is not modelled.

## Findings

| source | as written | input that shows it | evidently intended | confidence | as-written member | corrected member |
|---|---|---|---|---|---|---|
| src/workflow/review_graph.py:101 | anchor detection awaits the list returned by the synchronous detector, which raises; the step records the error with status `error` and no anchors | any chunk, since every chunk holds at least one file | call the detector without awaiting it, collecting each file's anchors | high; not executed | ReviewGraph.DetectionAsWrittenFails | ReviewGraph.DetectedTags |
| src/workflow/review_graph.py:130-132 | retrieval first reads `settings.force_use_all_rules`, which the settings do not define (nor does the retriever define `retrieve_all_rules`), so every retrieval raises | a chunk whose anchors gave no tags | no tags give no rules; otherwise query the store | high; not executed | ReviewGraph.RetrievalAsWrittenFails | ReviewGraph.EmptyTagsSkipRetrieval |
| src/workflow/review_graph.py:369 | the run reads `time.time()` but the module never imports `time`; the start record raises, and so does the handler's error record at 448-452, so the exception escapes `run` | any pull request whose diff and metadata fetches succeed | record the clock's time; finish `complete` or `partial_error` | high; not executed | ReviewGraph.RunAsWrittenRaises | ReviewGraph.RunStatus |
| src/workflow/review_graph.py:250 | verification reads `finding.code_snippet`, which the `Finding` model (src/models.py:57-65) does not declare, so verification raises and ends `verification_failed` | one finding in a file whose fetched content is not empty | the finding quotes its code and verification re-anchors it | high; not executed | FindingVerifier.AsWrittenFailsOnContent | FindingVerifier.VerifyFindings |
| src/workflow/review_graph.py:379 | chunk artifacts are saved under the run directory's bare name (also at 400-409), while status goes to the run directory under the base directory (363, 419) | any run with a base directory, e.g. `reports` | save artifacts under `report_dir_path`, where the results page (src/main.py:211-228) reads them | high; not executed | ReviewGraph.ArtifactsAsWrittenOutsideRunDir | ReviewGraph.RunArtifactsKept |
