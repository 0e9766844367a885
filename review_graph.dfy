/**
 * The review workflow: a fixed graph of seven steps run once per chunk of
 * the pull request's diff (detect anchors, retrieve rules, build the prompt,
 * generate the review, parse it, verify the findings, post), and the run
 * that fetches the diff, partitions it, drives the graph over every chunk,
 * gathers the findings and records the artifacts and the progress on disk.
 *
 * Each step catches its own exceptions: it records the message in `error`
 * and sets the status to `error` (verification only sets
 * `verification_failed`), and the graph goes on to the next step regardless.
 * The collaborators (the anchor detector's custom registry, regular
 * expression searches and compilation errors, the vector store, the language
 * model, the JSON decoder, the file fetch and the iteration order of a set of
 * tags) are the fields of `Collaborators`; the diff fetch, the
 * metadata fetch and the clock are parameters of `Run`.
 */
module ReviewGraph {
  import opened Wrappers
  import opened Text
  import opened Models
  import opened Dedup
  import opened Reporter
  import AD = AnchorDetector
  import Retriever
  import PromptBuilder
  import RP = ResponseParser
  import Partitioner
  import FV = FindingVerifier

  /** The values of the workflow's state dictionary. */
  datatype State = State(
    prId: int,
    sourceCommit: string,
    fileDiffs: seq<FileDiff>,
    anchors: seq<Anchor>,
    anchorTags: seq<string>,
    ruleChunks: seq<RuleChunk>,
    prompt: string,
    llmResponse: string,
    findings: seq<Finding>,
    status: string,
    error: string,
    reportDir: string)

  /**
   * The workflow's collaborators, as the functions they compute. `registry`
   * holds the objects of the anchor detector's registry file; the workflow's
   * own detector is built without one, which `DefaultDetectorNeverFails`
   * takes up.
   */
  datatype Collaborators = Collaborators(
    registry: seq<AD.RegistryItem>,
    search: (string, string) -> bool,
    patternError: string -> Option<string>,
    orderTags: set<string> -> seq<string>,
    store: (string, int, Option<map<string, string>>) -> Result<seq<RuleChunk>, string>,
    topK: int,
    threshold: int,
    generate: string -> Result<string, string>,
    fenced: string -> Option<string>,
    bare: string -> Option<string>,
    decode: string -> RP.Decoded,
    fetchFile: (string, string) -> Result<string, string>)

  /** A set's iteration order lists each of its elements exactly once. */
  ghost predicate OrdersSets(order: set<string> -> seq<string>) {
    forall ts :: FV.Distinct(order(ts)) && (set t | t in order(ts)) == ts
  }

  /** A failed step: the exception's message and the `error` status. */
  function Fail(s: State, message: string): State {
    s.(error := message, status := "error")
  }

  // ---------------------------------------------------------------------------
  // The steps, as functions of the state

  /** The detector's custom patterns, as its loader builds them from the registry. */
  function CustomPatterns(c: Collaborators): AD.Table {
    AD.RegistryOf(c.registry)
  }

  /** One file's anchors, as the detector merges them. */
  function FileAnchors(fd: FileDiff, c: Collaborators): seq<Anchor> {
    DedupBy(AD.Candidates(fd, CustomPatterns(c), c.search), AD.TagOf)
  }

  /** The anchors of all files, one file after another. */
  function AllAnchors(fds: seq<FileDiff>, c: Collaborators): seq<Anchor>
    decreases |fds|
  {
    if |fds| == 0 then []
    else AllAnchors(fds[..|fds| - 1], c) + FileAnchors(fds[|fds| - 1], c)
  }

  /**
   * What the loop of `_detect_anchors` gives: a custom pattern that does not
   * compile makes the first file raise; otherwise every file's anchors.
   */
  function AllDetection(fds: seq<FileDiff>, c: Collaborators): Result<seq<Anchor>, string> {
    match AD.FirstPatternError(CustomPatterns(c), c.patternError)
    case Some(e) => if |fds| > 0 then Failure(e) else Success([])
    case None => Success(AllAnchors(fds, c))
  }

  /** The loop of `_detect_anchors`: each file's anchors, appended in file order. */
  method DetectAll(fileDiffs: seq<FileDiff>, c: Collaborators) returns (r: Result<seq<Anchor>, string>)
    ensures r == AllDetection(fileDiffs, c)
  {
    r := Success([]);
    var i := 0;
    while i < |fileDiffs| && r.Success?
      invariant 0 <= i <= |fileDiffs|
      invariant r == AllDetection(fileDiffs[..i], c)
    {
      var anchors := AD.DetectAnchors(fileDiffs[i], CustomPatterns(c), c.search, c.patternError);
      FileDetection(fileDiffs, i, c, anchors);
      r := if anchors.Failure? then Failure(anchors.error) else Success(r.value + anchors.value);
      i := i + 1;
    }
    DetectionPrefix(fileDiffs, i, c);
  }

  /**
   * The detection of file `i` fails with the first pattern error, which is
   * then the whole loop's result, or gives the file's anchors.
   */
  lemma FileDetection(fds: seq<FileDiff>, i: nat, c: Collaborators, r: Result<seq<Anchor>, string>)
    requires i < |fds| && r == AD.Detection(fds[i], CustomPatterns(c), c.search, c.patternError)
    ensures r.Failure? ==> AllDetection(fds[..i + 1], c) == r
    ensures r.Success? ==> AllDetection(fds[..i], c).Success?
                           && AllDetection(fds[..i + 1], c) == Success(AllDetection(fds[..i], c).value + r.value)
  {
    AllAnchorsSnoc(fds, i, c);
  }

  /** A failed prefix is the failure of the whole sequence of files. */
  lemma DetectionPrefix(fds: seq<FileDiff>, i: nat, c: Collaborators)
    requires i <= |fds| && (i == |fds| || AllDetection(fds[..i], c).Failure?)
    ensures AllDetection(fds, c) == AllDetection(fds[..i], c)
  {
    assert fds[..|fds|] == fds;
  }

  lemma AllAnchorsSnoc(fds: seq<FileDiff>, i: nat, c: Collaborators)
    requires i < |fds|
    ensures AllAnchors(fds[..i + 1], c) == AllAnchors(fds[..i], c) + FileAnchors(fds[i], c)
  {
    assert fds[..i + 1][..i] == fds[..i];
  }

  /** `_detect_anchors` */
  function Detected(s: State, c: Collaborators): State {
    match AllDetection(s.fileDiffs, c)
    case Failure(e) => Fail(s, e)
    case Success(anchors) =>
      s.(anchors := anchors, anchorTags := c.orderTags(Keys(anchors, AD.TagOf)), status := "anchors_detected")
  }

  /** `_retrieve_rules`: no tags, no query. */
  function RulesRetrieved(s: State, c: Collaborators): State {
    if s.anchorTags == [] then s.(ruleChunks := [], status := "rules_retrieved")
    else
      match Retriever.Retrieved(s.anchorTags, c.topK, c.threshold, c.store)
      case Success(rules) => s.(ruleChunks := rules, status := "rules_retrieved")
      case Failure(e) => Fail(s, e)
  }

  /** `_build_prompt` */
  function PromptBuilt(s: State): State {
    match PromptBuilder.BuildReviewPrompt(s.fileDiffs, s.ruleChunks)
    case Success(prompt) => s.(prompt := prompt, status := "prompt_built")
    case Failure(e) => Fail(s, e)
  }

  /** `_generate_review` */
  function ReviewGenerated(s: State, c: Collaborators): State {
    match c.generate(s.prompt)
    case Success(response) => s.(llmResponse := response, status := "review_generated")
    case Failure(e) => Fail(s, e)
  }

  /** `_parse_response`: parsing and validation never raise. */
  function ResponseParsed(s: State, c: Collaborators): State {
    s.(findings := RP.Validated(RP.ParsedFindings(s.llmResponse, c.fenced, c.bare, c.decode)),
       status := "response_parsed")
  }

  /** `_verify_findings`: a failure keeps the findings and leaves `error` alone. */
  function FindingsVerified(s: State, c: Collaborators): State {
    match FV.Verified(s.findings, s.sourceCommit, c.fetchFile)
    case Success(fs) => s.(findings := fs, status := "findings_verified")
    case Failure(_) => s.(status := "verification_failed")
  }

  /** `_post_comments`: posting is switched off; the step only completes. */
  function CommentsPosted(s: State): State {
    s.(status := "complete")
  }

  /** The graph's nodes. */
  datatype Node = DetectAnchors | RetrieveRules | BuildPrompt | GenerateReview | ParseResponse | VerifyFindings | PostComments

  /** The compiled graph: entry at anchor detection, one edge to each next node, the last to the end. */
  const Graph: seq<Node> := [DetectAnchors, RetrieveRules, BuildPrompt, GenerateReview, ParseResponse, VerifyFindings, PostComments]

  /** What one node does to the state. */
  function Step(n: Node, s: State, c: Collaborators): State {
    match n
    case DetectAnchors => Detected(s, c)
    case RetrieveRules => RulesRetrieved(s, c)
    case BuildPrompt => PromptBuilt(s)
    case GenerateReview => ReviewGenerated(s, c)
    case ParseResponse => ResponseParsed(s, c)
    case VerifyFindings => FindingsVerified(s, c)
    case PostComments => CommentsPosted(s)
  }

  /** The state after the nodes run one after another. */
  function Walk(nodes: seq<Node>, s: State, c: Collaborators): State
    decreases |nodes|
  {
    if |nodes| == 0 then s
    else Step(nodes[|nodes| - 1], Walk(nodes[..|nodes| - 1], s, c), c)
  }

  /** One run of the graph. */
  function Pipeline(s: State, c: Collaborators): State {
    Walk(Graph, s, c)
  }

  // ---------------------------------------------------------------------------
  // What the steps promise

  /** No node changes the pull request, the commit, the diffs or the report directory. */
  lemma StepKeeps(n: Node, s: State, c: Collaborators)
    ensures Keeps(s, Step(n, s, c))
  {
    match n
    case DetectAnchors =>
    case RetrieveRules =>
      if s.anchorTags != [] {
        var r := Retriever.Retrieved(s.anchorTags, c.topK, c.threshold, c.store);
        assert r.Failure? ==> RulesRetrieved(s, c) == Fail(s, r.error);
      }
    case BuildPrompt =>
    case GenerateReview =>
    case ParseResponse =>
    case VerifyFindings =>
    case PostComments =>
  }

  /** Any walk keeps them too. */
  lemma {:induction false} WalkKeeps(nodes: seq<Node>, s: State, c: Collaborators)
    ensures Keeps(s, Walk(nodes, s, c))
    decreases |nodes|
  {
    if |nodes| > 0 {
      var t := Walk(nodes[..|nodes| - 1], s, c);
      WalkKeeps(nodes[..|nodes| - 1], s, c);
      StepKeeps(nodes[|nodes| - 1], t, c);
    }
  }

  /**
   * Every run of the graph ends `complete`, whatever failed on the way, and
   * leaves the pull request, commit, diffs and report directory as they
   * were; a failure shows only in `error`.
   */
  lemma PipelineCompletes(s: State, c: Collaborators)
    ensures Pipeline(s, c).status == "complete"
    ensures Keeps(s, Pipeline(s, c))
  {
    WalkKeeps(Graph, s, c);
    assert Graph[|Graph| - 1] == PostComments;
  }

  /** `t` has the pull request, commit, diffs and report directory of `s`. */
  predicate Keeps(s: State, t: State) {
    t.prId == s.prId && t.sourceCommit == s.sourceCommit && t.fileDiffs == s.fileDiffs && t.reportDir == s.reportDir
  }

  /** The nodes that can fail: anchor detection, retrieval, prompt building and generation. */
  predicate MayFail(n: Node) {
    n == DetectAnchors || n == RetrieveRules || n == BuildPrompt || n == GenerateReview
  }

  /**
   * A node keeps `error`, or it is one of the four that can fail and it
   * records the message with status `error`; a failed verification in
   * particular never touches `error`.
   */
  lemma StepKeepsOrFails(n: Node, s: State, c: Collaborators)
    ensures Step(n, s, c).error == s.error || (MayFail(n) && Step(n, s, c).status == "error")
  {
    if n == DetectAnchors {
      var r := AllDetection(s.fileDiffs, c);
      assert r.Failure? ==> Detected(s, c) == Fail(s, r.error);
    }
    if n == RetrieveRules && s.anchorTags != [] {
      var r := Retriever.Retrieved(s.anchorTags, c.topK, c.threshold, c.store);
      assert r.Failure? ==> RulesRetrieved(s, c) == Fail(s, r.error);
    }
  }

  /** Along any walk, `error` changes only when some node that can fail did. */
  lemma {:induction false} WalkErrorFromFailure(nodes: seq<Node>, s: State, c: Collaborators)
    ensures Walk(nodes, s, c).error != s.error ==>
              exists k :: 0 <= k < |nodes| && MayFail(nodes[k]) && Walk(nodes[..k + 1], s, c).status == "error"
    decreases |nodes|
  {
    if |nodes| > 0 {
      var init := nodes[..|nodes| - 1];
      var last := nodes[|nodes| - 1];
      var t := Walk(init, s, c);
      WalkErrorFromFailure(init, s, c);
      StepKeepsOrFails(last, t, c);
      if Walk(nodes, s, c).error != s.error {
        if t.error != s.error {
          var k :| 0 <= k < |init| && MayFail(init[k]) && Walk(init[..k + 1], s, c).status == "error";
          assert nodes[..k + 1] == init[..k + 1];
          assert nodes[k] == init[k];
        } else {
          assert nodes[..|nodes|] == nodes;
          assert MayFail(nodes[|nodes| - 1]) && Walk(nodes[..|nodes|], s, c).status == "error";
        }
      }
    }
  }

  /** Without tags the store is not asked and no rules are used. */
  lemma EmptyTagsSkipRetrieval(s: State, c: Collaborators)
    requires s.anchorTags == []
    ensures RulesRetrieved(s, c) == s.(ruleChunks := [], status := "rules_retrieved")
  {
  }

  /** After a successful detection the tags are the anchors' distinct tags, each once. */
  lemma DetectedTags(s: State, c: Collaborators)
    requires OrdersSets(c.orderTags)
    ensures Detected(s, c).status == "anchors_detected" ==> FV.Distinct(Detected(s, c).anchorTags)
    ensures Detected(s, c).status == "anchors_detected" ==>
              (set t | t in Detected(s, c).anchorTags) == Keys(Detected(s, c).anchors, AD.TagOf)
  {
    var r := AllDetection(s.fileDiffs, c);
    if r.Success? {
      var ts := Keys(r.value, AD.TagOf);
      assert FV.Distinct(c.orderTags(ts)) && (set t | t in c.orderTags(ts)) == ts;
    }
  }

  /**
   * Detection fails exactly when the chunk has a file and some registry
   * pattern does not compile; the failure records the first such pattern's
   * error and keeps the anchors.
   */
  lemma DetectionFailure(s: State, c: Collaborators)
    ensures Detected(s, c).status == "error" <==>
              |s.fileDiffs| > 0
              && exists i :: 0 <= i < |CustomPatterns(c)| && c.patternError(CustomPatterns(c)[i].0).Some?
    ensures Detected(s, c).status == "error" ==>
              Detected(s, c).anchors == s.anchors
              && exists i :: AD.FirstInvalidAt(CustomPatterns(c), c.patternError, i, Detected(s, c).error)
  {
    AD.FirstPatternErrorCorrect(CustomPatterns(c), c.patternError);
  }

  /**
   * The workflow builds its detector without a registry file, so its
   * detection never fails and yields every file's merged anchors.
   */
  lemma DefaultDetectorNeverFails(s: State, c: Collaborators)
    requires c.registry == []
    ensures Detected(s, c).status == "anchors_detected"
    ensures Detected(s, c).anchors == AllAnchors(s.fileDiffs, c)
  {
    assert CustomPatterns(c) == [];
  }

  /**
   * Verification keeps every finding, regrouped by file, changing at most
   * its line.
   */
  lemma VerificationKeepsFindings(s: State, c: Collaborators)
    requires FindingsVerified(s, c).status == "findings_verified"
    ensures |FindingsVerified(s, c).findings| == |s.findings|
    ensures |FV.Regroup(s.findings)| == |s.findings| && multiset(FV.Regroup(s.findings)) == multiset(s.findings)
    ensures forall k :: 0 <= k < |s.findings| ==>
              FindingsVerified(s, c).findings[k] == FV.Regroup(s.findings)[k].(line := FindingsVerified(s, c).findings[k].line)
  {
    FV.RegroupPermutation(s.findings);
    FV.VerifiedKeepsFindings(s.findings, s.sourceCommit, c.fetchFile);
  }

  /** When verification fails, the findings and everything else stay as they were. */
  lemma VerificationFailureKeepsState(s: State, c: Collaborators)
    ensures FindingsVerified(s, c).status == "verification_failed" <==> FV.Verified(s.findings, s.sourceCommit, c.fetchFile).Failure?
    ensures FindingsVerified(s, c).status == "verification_failed" ==> FindingsVerified(s, c) == s.(status := "verification_failed")
  {
  }

  // ---------------------------------------------------------------------------
  // The steps as written

  /** `detect_anchors` is not a coroutine; awaiting the list it returns raises. */
  const AwaitError := "object list can't be used in 'await' expression"

  /** `_detect_anchors` as written: the first file already raises. */
  function DetectedAsWritten(s: State): State {
    if |s.fileDiffs| > 0 then Fail(s, AwaitError)
    else s.(anchors := [], anchorTags := [], status := "anchors_detected")
  }

  /** A chunk always has diffs, so as written anchor detection always fails. */
  lemma DetectionAsWrittenFails(s: State)
    requires |s.fileDiffs| > 0
    ensures DetectedAsWritten(s).status == "error" && DetectedAsWritten(s).error == AwaitError
    ensures DetectedAsWritten(s).anchors == s.anchors
  {
  }

  /** The settings define no `force_use_all_rules`, and the retriever no `retrieve_all_rules`. */
  const ForceFlagError := "'Settings' object has no attribute 'force_use_all_rules'"

  /** `_retrieve_rules` as written: reading the setting raises before any branch. */
  function RulesRetrievedAsWritten(s: State): State {
    Fail(s, ForceFlagError)
  }

  /** As written, retrieval fails even without tags, where it should use no rules. */
  lemma RetrievalAsWrittenFails(s: State, c: Collaborators)
    requires s.anchorTags == []
    ensures RulesRetrievedAsWritten(s).status == "error"
    ensures RulesRetrieved(s, c).status == "rules_retrieved" && RulesRetrieved(s, c).ruleChunks == []
  {
  }

  // ---------------------------------------------------------------------------
  // The state dictionary

  /** The dictionary the steps update in place. */
  class ReviewState {
    var prId: int
    var sourceCommit: string
    var fileDiffs: seq<FileDiff>
    var anchors: seq<Anchor>
    var anchorTags: seq<string>
    var ruleChunks: seq<RuleChunk>
    var prompt: string
    var llmResponse: string
    var findings: seq<Finding>
    var status: string
    var error: string
    var reportDir: string

    function Value(): State
      reads this
    {
      State(prId, sourceCommit, fileDiffs, anchors, anchorTags, ruleChunks, prompt, llmResponse,
            findings, status, error, reportDir)
    }

    constructor (v: State)
      ensures Value() == v
    {
      prId := v.prId;
      sourceCommit := v.sourceCommit;
      fileDiffs := v.fileDiffs;
      anchors := v.anchors;
      anchorTags := v.anchorTags;
      ruleChunks := v.ruleChunks;
      prompt := v.prompt;
      llmResponse := v.llmResponse;
      findings := v.findings;
      status := v.status;
      error := v.error;
      reportDir := v.reportDir;
    }
  }

  // ---------------------------------------------------------------------------
  // The run

  function InitialRunState(prId: int): State {
    State(prId, "", [], [], [], [], "", "", [], "started", "", "")
  }

  function InitialChunkState(prId: int, commit: string, chunk: seq<FileDiff>): State {
    State(prId, commit, chunk, [], [], [], "", "", [], "started", "", "")
  }

  /** The graph's result for every chunk. */
  function ChunkResults(chunks: seq<seq<FileDiff>>, prId: int, commit: string, c: Collaborators): (rs: seq<State>)
    ensures |rs| == |chunks|
  {
    seq(|chunks|, i requires 0 <= i < |chunks| => Pipeline(InitialChunkState(prId, commit, chunks[i]), c))
  }

  /** The run's error text for chunk `i`. */
  function ChunkError(i: nat, r: State): string {
    if r.error != "" then "Chunk " + NatToString(i) + " error: " + r.error + "; " else ""
  }

  /** The errors of the chunks, in order. */
  function ErrorLog(results: seq<State>): string
    decreases |results|
  {
    if |results| == 0 then ""
    else ErrorLog(results[..|results| - 1]) + ChunkError(|results| - 1, results[|results| - 1])
  }

  /** The findings of the chunks, in order. */
  function AllFindings(results: seq<State>): seq<Finding>
    decreases |results|
  {
    if |results| == 0 then []
    else AllFindings(results[..|results| - 1]) + results[|results| - 1].findings
  }

  /** One more chunk appends its error text and its findings. */
  lemma LogsSnoc(results: seq<State>, i: nat)
    requires i < |results|
    ensures ErrorLog(results[..i + 1]) == ErrorLog(results[..i]) + ChunkError(i, results[i])
    ensures AllFindings(results[..i + 1]) == AllFindings(results[..i]) + results[i].findings
  {
    assert results[..i + 1][..i] == results[..i];
  }

  /** The run directory's path: a new one, or the given name under the base directory. */
  function RunDirPath(baseDir: string, reportDir: string, timestamp: string, prId: int): string {
    if reportDir == "" then PathJoin(baseDir, ReportDirName(timestamp, prId)) else PathJoin(baseDir, reportDir)
  }

  /** The run directory's name as the final state records it. */
  function RunDirName(baseDir: string, reportDir: string, timestamp: string, prId: int): string {
    if reportDir == "" then BaseName(RunDirPath(baseDir, reportDir, timestamp, prId)) else reportDir
  }

  function RunChunks(fetched: Result<seq<FileDiff>, string>, maxLines: int): seq<seq<FileDiff>> {
    if fetched.Success? then Partitioner.Partition(fetched.value, maxLines) else []
  }

  /** The final state of a run. */
  function RunResult(prId: int, reportDir: string, fetched: Result<seq<FileDiff>, string>,
                     commit: Result<string, string>, baseDir: string, timestamp: string,
                     maxLines: int, c: Collaborators): State
  {
    match fetched
    case Failure(e) => Fail(InitialRunState(prId), e)
    case Success(fds) =>
      match commit
      case Failure(e) => Fail(InitialRunState(prId), e)
      case Success(hash) =>
        var results := ChunkResults(Partitioner.Partition(fds, maxLines), prId, hash, c);
        var err := ErrorLog(results);
        InitialRunState(prId).(sourceCommit := hash, fileDiffs := fds,
                               reportDir := RunDirName(baseDir, reportDir, timestamp, prId),
                               findings := AllFindings(results),
                               status := if err == "" then "complete" else "partial_error",
                               error := err)
  }

  function StartStatus(prId: int, total: int, now: int): StatusRecord {
    map["status" := SText("in_progress"), "pr_id" := SCount(prId), "total_chunks" := SCount(total),
        "completed_chunks" := SCount(0), "current_chunk" := SCount(0), "start_time" := STime(now)]
  }

  function ProgressStatus(prId: int, total: int, done: int, now: int): StatusRecord {
    map["status" := SText("in_progress"), "pr_id" := SCount(prId), "total_chunks" := SCount(total),
        "completed_chunks" := SCount(done), "current_chunk" := SCount(done), "last_updated" := STime(now)]
  }

  function EndStatus(status: string, prId: int, total: int, now: int, error: string): StatusRecord {
    map["status" := SText(status), "pr_id" := SCount(prId), "total_chunks" := SCount(total),
        "completed_chunks" := SCount(total), "end_time" := STime(now), "error" := SText(error)]
  }

  /** The files after chunk `i` is processed: its seven artifacts, then the progress record. */
  function ChunkWrites(files: map<string, Artifact>, p: string, i: nat, chunk: seq<FileDiff>, r: State,
                       prId: int, total: int, now: int): map<string, Artifact>
  {
    files[ChunkFile(p, i, DiffsName) := DiffsFile(chunk)]
         [ChunkFile(p, i, AnchorsName) := AnchorsFile(r.anchors)]
         [ChunkFile(p, i, RulesName) := RulesFile(r.ruleChunks)]
         [ChunkFile(p, i, PromptName) := TextFile(r.prompt)]
         [ChunkFile(p, i, RawResponseName) := TextFile(r.llmResponse)]
         [ChunkFile(p, i, ParsedResponseName) := FindingsFile(r.findings)]
         [ChunkFile(p, i, PossibleCommentsName) := FindingsFile(r.findings)]
         [StatusPath(p) := StatusFile(ProgressStatus(prId, total, i + 1, now))]
  }

  function ChunkDirsWritten(dirs: set<string>, p: string, i: nat): set<string> {
    dirs + {ChunkDir(p, i)} + (if p == "" then {} else {p})
  }

  /** The files after the first `k` chunks. */
  function FilesAfterChunks(files: map<string, Artifact>, p: string, chunks: seq<seq<FileDiff>>,
                            results: seq<State>, prId: int, now: int, k: nat): map<string, Artifact>
    requires k <= |chunks| == |results|
  {
    if k == 0 then files
    else ChunkWrites(FilesAfterChunks(files, p, chunks, results, prId, now, k - 1), p, k - 1, chunks[k - 1],
                     results[k - 1], prId, |chunks|, now)
  }

  function DirsAfterChunks(dirs: set<string>, p: string, k: nat): set<string> {
    if k == 0 then dirs else ChunkDirsWritten(DirsAfterChunks(dirs, p, k - 1), p, k - 1)
  }

  /** The files a run leaves: nothing when a fetch fails, else the records and every chunk's artifacts. */
  function RunFiles(files: map<string, Artifact>, prId: int, reportDir: string,
                    fetched: Result<seq<FileDiff>, string>, commit: Result<string, string>,
                    baseDir: string, timestamp: string, now: int, maxLines: int, c: Collaborators)
    : map<string, Artifact>
  {
    if fetched.Failure? || commit.Failure? then files
    else
      var chunks := Partitioner.Partition(fetched.value, maxLines);
      ChunkedRunFiles(files, RunDirPath(baseDir, reportDir, timestamp, prId), chunks,
                      ChunkResults(chunks, prId, commit.value, c), prId, now)
  }

  /** The files after the start record, the chunks' iterations and the end record under run directory `p`. */
  function ChunkedRunFiles(files: map<string, Artifact>, p: string, chunks: seq<seq<FileDiff>>, results: seq<State>,
                           prId: int, now: int): map<string, Artifact>
    requires |chunks| == |results|
  {
    var err := ErrorLog(results);
    var started := files[StatusPath(p) := StatusFile(StartStatus(prId, |chunks|, now))];
    FilesAfterChunks(started, p, chunks, results, prId, now, |chunks|)
      [StatusPath(p) := StatusFile(EndStatus(if err == "" then "complete" else "partial_error",
                                             prId, |chunks|, now, err))]
  }

  function RunDirs(dirs: set<string>, prId: int, reportDir: string,
                   fetched: Result<seq<FileDiff>, string>, commit: Result<string, string>,
                   baseDir: string, timestamp: string, maxLines: int): set<string>
  {
    if fetched.Failure? || commit.Failure? then dirs
    else
      var p := RunDirPath(baseDir, reportDir, timestamp, prId);
      DirsAfterChunks(dirs + (if reportDir == "" then {p} else {}), p, |Partitioner.Partition(fetched.value, maxLines)|)
  }

  // ---------------------------------------------------------------------------
  // What a run promises

  /** The error log is empty exactly when no chunk reported an error. */
  lemma {:induction false} ErrorLogEmpty(results: seq<State>)
    ensures ErrorLog(results) == "" <==> forall i :: 0 <= i < |results| ==> results[i].error == ""
    decreases |results|
  {
    if |results| > 0 {
      var init := results[..|results| - 1];
      var last := results[|results| - 1];
      ErrorLogEmpty(init);
      assert ErrorLog(results) == ErrorLog(init) + ChunkError(|results| - 1, last);
      assert last.error != "" ==> |ChunkError(|results| - 1, last)| > 0;
      assert forall i :: 0 <= i < |init| ==> init[i] == results[i];
    }
  }

  /** The run's findings are exactly the chunks' findings. */
  lemma {:induction false} AllFindingsFromChunks(results: seq<State>, f: Finding)
    ensures f in AllFindings(results) <==> exists i :: 0 <= i < |results| && f in results[i].findings
    ensures |AllFindings(results)| == 0 <==> forall i :: 0 <= i < |results| ==> results[i].findings == []
    decreases |results|
  {
    if |results| > 0 {
      var init := results[..|results| - 1];
      var last := results[|results| - 1];
      AllFindingsFromChunks(init, f);
      assert AllFindings(results) == AllFindings(init) + last.findings;
      assert forall i :: 0 <= i < |init| ==> init[i] == results[i];
      if f in AllFindings(init) {
        var i :| 0 <= i < |init| && f in init[i].findings;
        assert f in results[i].findings;
      }
    }
  }

  /** A failed fetch ends the run in `error` with the fetch's message, before anything is written. */
  lemma RunFetchFailure(files: map<string, Artifact>, dirs: set<string>, prId: int, reportDir: string,
                        fetched: Result<seq<FileDiff>, string>, commit: Result<string, string>,
                        baseDir: string, timestamp: string, now: int, maxLines: int, c: Collaborators)
    requires fetched.Failure? || commit.Failure?
    ensures var r := RunResult(prId, reportDir, fetched, commit, baseDir, timestamp, maxLines, c);
            r.status == "error" && r.error == (if fetched.Failure? then fetched.error else commit.error)
            && r.findings == [] && r.reportDir == "" && r.prId == prId
    ensures RunFiles(files, prId, reportDir, fetched, commit, baseDir, timestamp, now, maxLines, c) == files
    ensures RunDirs(dirs, prId, reportDir, fetched, commit, baseDir, timestamp, maxLines) == dirs
  {
  }

  /**
   * After both fetches a run ends `complete` when no chunk reported an
   * error and `partial_error` otherwise, with the chunks' findings and the
   * full diff.
   */
  lemma RunStatus(prId: int, reportDir: string, fetched: Result<seq<FileDiff>, string>,
                  commit: Result<string, string>, baseDir: string, timestamp: string, maxLines: int, c: Collaborators)
    requires fetched.Success? && commit.Success?
    ensures var results := ChunkResults(Partitioner.Partition(fetched.value, maxLines), prId, commit.value, c);
            var r := RunResult(prId, reportDir, fetched, commit, baseDir, timestamp, maxLines, c);
            (r.status == "complete" <==> forall i :: 0 <= i < |results| ==> results[i].error == "")
            && (r.status == "complete" || r.status == "partial_error")
            && r.findings == AllFindings(results) && r.fileDiffs == fetched.value && r.sourceCommit == commit.value
  {
    var results := ChunkResults(Partitioner.Partition(fetched.value, maxLines), prId, commit.value, c);
    ErrorLogEmpty(results);
  }

  /** An empty diff gives no chunks: the run completes with no findings and writes only its status. */
  lemma EmptyDiffCompletes(files: map<string, Artifact>, prId: int, reportDir: string, commit: Result<string, string>,
                           baseDir: string, timestamp: string, now: int, maxLines: int, c: Collaborators)
    requires commit.Success?
    ensures var r := RunResult(prId, reportDir, Success([]), commit, baseDir, timestamp, maxLines, c);
            r.status == "complete" && r.findings == [] && r.error == ""
    ensures RunFiles(files, prId, reportDir, Success([]), commit, baseDir, timestamp, now, maxLines, c)
            == files[StatusPath(RunDirPath(baseDir, reportDir, timestamp, prId)) := StatusFile(EndStatus("complete", prId, 0, now, ""))]
  {
    Partitioner.PartitionCorrect([], maxLines);
    var results := ChunkResults([], prId, commit.value, c);
    assert results == [];
  }

  /** The seven artifacts a chunk's iteration writes. */
  const ChunkArtifactNames: set<string> :=
    {DiffsName, AnchorsName, RulesName, PromptName, RawResponseName, ParsedResponseName, PossibleCommentsName}

  /** What the artifact `name` of a chunk holds after the chunk's graph returned `r`. */
  function Expected(name: string, chunk: seq<FileDiff>, r: State): Artifact {
    if name == DiffsName then DiffsFile(chunk)
    else if name == AnchorsName then AnchorsFile(r.anchors)
    else if name == RulesName then RulesFile(r.ruleChunks)
    else if name == PromptName then TextFile(r.prompt)
    else if name == RawResponseName then TextFile(r.llmResponse)
    else FindingsFile(r.findings)
  }

  /** The files hold chunk `i`'s seven artifacts, as its iteration wrote them. */
  ghost predicate ChunkArtifacts(files: map<string, Artifact>, p: string, i: nat, chunk: seq<FileDiff>, r: State) {
    forall a :: a in ChunkArtifactNames ==> ChunkFile(p, i, a) in files && files[ChunkFile(p, i, a)] == Expected(a, chunk, r)
  }

  /** A chunk's iteration writes artifact `a` where it belongs, and no later write of its own overwrites it. */
  lemma ChunkWriteStores(files: map<string, Artifact>, p: string, i: nat, a: string, chunk: seq<FileDiff>, r: State,
                         prId: int, total: int, now: int)
    requires a in ChunkArtifactNames
    ensures var out := ChunkWrites(files, p, i, chunk, r, prId, total, now);
            ChunkFile(p, i, a) in out && out[ChunkFile(p, i, a)] == Expected(a, chunk, r)
  {
    if a == DiffsName {
      StoresDiffs(files, p, i, chunk, r, prId, total, now);
    }     else if a == AnchorsName {
      StoresAnchors(files, p, i, chunk, r, prId, total, now);
    }     else if a == RulesName {
      StoresRules(files, p, i, chunk, r, prId, total, now);
    }     else if a == PromptName {
      StoresPrompt(files, p, i, chunk, r, prId, total, now);
    }     else if a == RawResponseName {
      StoresRawResponse(files, p, i, chunk, r, prId, total, now);
    }     else if a == ParsedResponseName {
      StoresParsedResponse(files, p, i, chunk, r, prId, total, now);
    }     else if a == PossibleCommentsName {
      StoresPossibleComments(files, p, i, chunk, r, prId, total, now);
    }
  }

  /** One lemma per artifact: the writes after it in the same iteration go to other paths. */
  lemma StoresDiffs(files: map<string, Artifact>, p: string, i: nat, chunk: seq<FileDiff>, r: State,
                          prId: int, total: int, now: int)
    ensures var out := ChunkWrites(files, p, i, chunk, r, prId, total, now);
            ChunkFile(p, i, DiffsName) in out && out[ChunkFile(p, i, DiffsName)] == Expected(DiffsName, chunk, r)
  {
    ChunkFileNotStatus(p, i, DiffsName);
    ChunkFilesDistinct(p, i, DiffsName, i, AnchorsName);
    ChunkFilesDistinct(p, i, DiffsName, i, RulesName);
    ChunkFilesDistinct(p, i, DiffsName, i, PromptName);
    ChunkFilesDistinct(p, i, DiffsName, i, RawResponseName);
    ChunkFilesDistinct(p, i, DiffsName, i, ParsedResponseName);
    ChunkFilesDistinct(p, i, DiffsName, i, PossibleCommentsName);
  }

  lemma StoresAnchors(files: map<string, Artifact>, p: string, i: nat, chunk: seq<FileDiff>, r: State,
                          prId: int, total: int, now: int)
    ensures var out := ChunkWrites(files, p, i, chunk, r, prId, total, now);
            ChunkFile(p, i, AnchorsName) in out && out[ChunkFile(p, i, AnchorsName)] == Expected(AnchorsName, chunk, r)
  {
    ChunkFileNotStatus(p, i, AnchorsName);
    ChunkFilesDistinct(p, i, AnchorsName, i, RulesName);
    ChunkFilesDistinct(p, i, AnchorsName, i, PromptName);
    ChunkFilesDistinct(p, i, AnchorsName, i, RawResponseName);
    ChunkFilesDistinct(p, i, AnchorsName, i, ParsedResponseName);
    ChunkFilesDistinct(p, i, AnchorsName, i, PossibleCommentsName);
  }

  lemma StoresRules(files: map<string, Artifact>, p: string, i: nat, chunk: seq<FileDiff>, r: State,
                          prId: int, total: int, now: int)
    ensures var out := ChunkWrites(files, p, i, chunk, r, prId, total, now);
            ChunkFile(p, i, RulesName) in out && out[ChunkFile(p, i, RulesName)] == Expected(RulesName, chunk, r)
  {
    ChunkFileNotStatus(p, i, RulesName);
    ChunkFilesDistinct(p, i, RulesName, i, PromptName);
    ChunkFilesDistinct(p, i, RulesName, i, RawResponseName);
    ChunkFilesDistinct(p, i, RulesName, i, ParsedResponseName);
    ChunkFilesDistinct(p, i, RulesName, i, PossibleCommentsName);
  }

  lemma StoresPrompt(files: map<string, Artifact>, p: string, i: nat, chunk: seq<FileDiff>, r: State,
                          prId: int, total: int, now: int)
    ensures var out := ChunkWrites(files, p, i, chunk, r, prId, total, now);
            ChunkFile(p, i, PromptName) in out && out[ChunkFile(p, i, PromptName)] == Expected(PromptName, chunk, r)
  {
    ChunkFileNotStatus(p, i, PromptName);
    ChunkFilesDistinct(p, i, PromptName, i, RawResponseName);
    ChunkFilesDistinct(p, i, PromptName, i, ParsedResponseName);
    ChunkFilesDistinct(p, i, PromptName, i, PossibleCommentsName);
  }

  lemma StoresRawResponse(files: map<string, Artifact>, p: string, i: nat, chunk: seq<FileDiff>, r: State,
                          prId: int, total: int, now: int)
    ensures var out := ChunkWrites(files, p, i, chunk, r, prId, total, now);
            ChunkFile(p, i, RawResponseName) in out && out[ChunkFile(p, i, RawResponseName)] == Expected(RawResponseName, chunk, r)
  {
    ChunkFileNotStatus(p, i, RawResponseName);
    ChunkFilesDistinct(p, i, RawResponseName, i, ParsedResponseName);
    ChunkFilesDistinct(p, i, RawResponseName, i, PossibleCommentsName);
  }

  lemma StoresParsedResponse(files: map<string, Artifact>, p: string, i: nat, chunk: seq<FileDiff>, r: State,
                          prId: int, total: int, now: int)
    ensures var out := ChunkWrites(files, p, i, chunk, r, prId, total, now);
            ChunkFile(p, i, ParsedResponseName) in out && out[ChunkFile(p, i, ParsedResponseName)] == Expected(ParsedResponseName, chunk, r)
  {
    ChunkFileNotStatus(p, i, ParsedResponseName);
    ChunkFilesDistinct(p, i, ParsedResponseName, i, PossibleCommentsName);
  }

  lemma StoresPossibleComments(files: map<string, Artifact>, p: string, i: nat, chunk: seq<FileDiff>, r: State,
                          prId: int, total: int, now: int)
    ensures var out := ChunkWrites(files, p, i, chunk, r, prId, total, now);
            ChunkFile(p, i, PossibleCommentsName) in out && out[ChunkFile(p, i, PossibleCommentsName)] == Expected(PossibleCommentsName, chunk, r)
  {
    ChunkFileNotStatus(p, i, PossibleCommentsName);
  }

  /** Another chunk's iteration leaves artifact `a` of chunk `i` as it was. */
  lemma ChunkWriteKeepsOther(files: map<string, Artifact>, p: string, i: nat, a: string, j: nat,
                             chunk: seq<FileDiff>, r: State, prId: int, total: int, now: int)
    requires a in ChunkArtifactNames && i != j && ChunkFile(p, i, a) in files
    ensures var out := ChunkWrites(files, p, j, chunk, r, prId, total, now);
            ChunkFile(p, i, a) in out && out[ChunkFile(p, i, a)] == files[ChunkFile(p, i, a)]
  {
    ChunkFilesDistinct(p, i, a, j, DiffsName);
    ChunkFilesDistinct(p, i, a, j, AnchorsName);
    ChunkFilesDistinct(p, i, a, j, RulesName);
    ChunkFilesDistinct(p, i, a, j, PromptName);
    ChunkFilesDistinct(p, i, a, j, RawResponseName);
    ChunkFilesDistinct(p, i, a, j, ParsedResponseName);
    ChunkFilesDistinct(p, i, a, j, PossibleCommentsName);
  }

  /** A chunk's iteration leaves its seven artifacts in place. */
  lemma ChunkWritesStore(files: map<string, Artifact>, p: string, i: nat, chunk: seq<FileDiff>, r: State,
                         prId: int, total: int, now: int)
    ensures ChunkArtifacts(ChunkWrites(files, p, i, chunk, r, prId, total, now), p, i, chunk, r)
  {
    forall a | a in ChunkArtifactNames
      ensures var out := ChunkWrites(files, p, i, chunk, r, prId, total, now);
              ChunkFile(p, i, a) in out && out[ChunkFile(p, i, a)] == Expected(a, chunk, r)
    {
      ChunkWriteStores(files, p, i, a, chunk, r, prId, total, now);
    }
  }

  /** A later chunk's iteration does not touch an earlier chunk's artifacts. */
  lemma ChunkWritesKeep(files: map<string, Artifact>, p: string, i: nat, chunk: seq<FileDiff>, r: State,
                        j: nat, chunk': seq<FileDiff>, r': State, prId: int, total: int, now: int)
    requires i != j && ChunkArtifacts(files, p, i, chunk, r)
    ensures ChunkArtifacts(ChunkWrites(files, p, j, chunk', r', prId, total, now), p, i, chunk, r)
  {
    forall a | a in ChunkArtifactNames
      ensures var out := ChunkWrites(files, p, j, chunk', r', prId, total, now);
              ChunkFile(p, i, a) in out && out[ChunkFile(p, i, a)] == Expected(a, chunk, r)
    {
      ChunkWriteKeepsOther(files, p, i, a, j, chunk', r', prId, total, now);
    }
  }

  /** After `k` chunks, chunk `i < k` still has its artifacts on disk. */
  lemma {:induction false} FilesAfterChunksKeep(files: map<string, Artifact>, p: string, chunks: seq<seq<FileDiff>>,
                                                results: seq<State>, prId: int, now: int, k: nat, i: nat)
    requires i < k <= |chunks| == |results|
    ensures ChunkArtifacts(FilesAfterChunks(files, p, chunks, results, prId, now, k), p, i, chunks[i], results[i])
  {
    var before := FilesAfterChunks(files, p, chunks, results, prId, now, k - 1);
    assert FilesAfterChunks(files, p, chunks, results, prId, now, k)
           == ChunkWrites(before, p, k - 1, chunks[k - 1], results[k - 1], prId, |chunks|, now);
    if i == k - 1 {
      ChunkWritesStore(before, p, i, chunks[i], results[i], prId, |chunks|, now);
    } else {
      FilesAfterChunksKeep(files, p, chunks, results, prId, now, k - 1, i);
      ChunkWritesKeep(before, p, i, chunks[i], results[i], k - 1, chunks[k - 1], results[k - 1], prId, |chunks|, now);
    }
  }

  /** Rewriting the status record keeps every chunk's artifacts. */
  lemma StatusWriteKeeps(files: map<string, Artifact>, p: string, i: nat, chunk: seq<FileDiff>, r: State, v: Artifact)
    requires ChunkArtifacts(files, p, i, chunk, r)
    ensures ChunkArtifacts(files[StatusPath(p) := v], p, i, chunk, r)
  {
    forall a | a in ChunkArtifactNames
      ensures ChunkFile(p, i, a) != StatusPath(p)
    {
      ChunkFileNotStatus(p, i, a);
    }
  }

  /**
   * After a run every chunk's seven artifacts are under the run directory,
   * holding that chunk's diffs and its graph's results, and the status
   * record there is the final one.
   */
  lemma RunArtifactsKept(files: map<string, Artifact>, prId: int, reportDir: string,
                         fetched: Result<seq<FileDiff>, string>, commit: Result<string, string>,
                         baseDir: string, timestamp: string, now: int, maxLines: int, c: Collaborators)
    requires fetched.Success? && commit.Success?
    ensures var chunks := Partitioner.Partition(fetched.value, maxLines);
            var results := ChunkResults(chunks, prId, commit.value, c);
            var p := RunDirPath(baseDir, reportDir, timestamp, prId);
            var out := RunFiles(files, prId, reportDir, fetched, commit, baseDir, timestamp, now, maxLines, c);
            (forall i :: 0 <= i < |chunks| ==> ChunkArtifacts(out, p, i, chunks[i], results[i]))
            && StatusPath(p) in out
            && out[StatusPath(p)] == StatusFile(EndStatus(if ErrorLog(results) == "" then "complete" else "partial_error",
                                                          prId, |chunks|, now, ErrorLog(results)))
  {
    var chunks := Partitioner.Partition(fetched.value, maxLines);
    var results := ChunkResults(chunks, prId, commit.value, c);
    var p := RunDirPath(baseDir, reportDir, timestamp, prId);
    var started := files[StatusPath(p) := StatusFile(StartStatus(prId, |chunks|, now))];
    AllChunksKept(started, p, chunks, results, prId, now,
                  StatusFile(EndStatus(if ErrorLog(results) == "" then "complete" else "partial_error",
                                       prId, |chunks|, now, ErrorLog(results))));
  }

  /** Every chunk's artifacts survive the later chunks and the final status record. */
  lemma AllChunksKept(files: map<string, Artifact>, p: string, chunks: seq<seq<FileDiff>>, results: seq<State>,
                      prId: int, now: int, end: Artifact)
    requires |chunks| == |results|
    ensures var out := FilesAfterChunks(files, p, chunks, results, prId, now, |chunks|)[StatusPath(p) := end];
            forall i :: 0 <= i < |chunks| ==> ChunkArtifacts(out, p, i, chunks[i], results[i])
  {
    var after := FilesAfterChunks(files, p, chunks, results, prId, now, |chunks|);
    forall i | 0 <= i < |chunks|
      ensures ChunkArtifacts(after[StatusPath(p) := end], p, i, chunks[i], results[i])
    {
      FilesAfterChunksKeep(files, p, chunks, results, prId, now, |chunks|, i);
      StatusWriteKeeps(after, p, i, chunks[i], results[i], end);
    }
  }

  // ---------------------------------------------------------------------------
  // The run as written

  /** The workflow module calls `time.time()` but never imports `time`. */
  const TimeError := "name 'time' is not defined"

  /** How a call ends: with a value, or with an exception that escapes it. */
  datatype Outcome = Returned(state: State) | Raised(message: string)

  /**
   * `run` as written: a failed fetch is caught and returned; otherwise
   * building the start record raises, and the handler, which now sees a run
   * directory, raises again building the error record, so the exception
   * escapes `run`.
   */
  function RunOutcomeAsWritten(prId: int, fetched: Result<seq<FileDiff>, string>, commit: Result<string, string>): Outcome {
    if fetched.Failure? then Returned(Fail(InitialRunState(prId), fetched.error))
    else if commit.Failure? then Returned(Fail(InitialRunState(prId), commit.error))
    else Raised(TimeError)
  }

  /** As written, every run whose fetches succeed raises, where it should finish `complete` or `partial_error`. */
  lemma RunAsWrittenRaises(prId: int, reportDir: string, fetched: Result<seq<FileDiff>, string>,
                           commit: Result<string, string>, baseDir: string, timestamp: string, maxLines: int, c: Collaborators)
    requires fetched.Success? && commit.Success?
    ensures RunOutcomeAsWritten(prId, fetched, commit) == Raised(TimeError)
    ensures var r := RunResult(prId, reportDir, fetched, commit, baseDir, timestamp, maxLines, c);
            r.status == "complete" || r.status == "partial_error"
  {
    RunStatus(prId, reportDir, fetched, commit, baseDir, timestamp, maxLines, c);
  }

  /** The directory the chunk loop hands the reporter as written: the run directory's bare name. */
  function ArtifactDirAsWritten(baseDir: string, reportDir: string, timestamp: string, prId: int): string {
    RunDirName(baseDir, reportDir, timestamp, prId)
  }

  /** No separator appears in a run directory's generated name. */
  lemma ReportDirNamePlain(timestamp: string, prId: int)
    requires '/' !in timestamp
    ensures '/' !in ReportDirName(timestamp, prId) && ReportDirName(timestamp, prId) != ""
  {
    var digits := NatToString(if prId < 0 then -prId else prId);
    assert '/' !in digits by {
      forall k | 0 <= k < |digits| ensures digits[k] != '/' {
        assert IsDigit(digits[k]);
      }
    }
    assert IntToString(prId) == (if prId < 0 then "-" else "") + digits;
  }

  /**
   * As written, a chunk's artifacts land under the run directory's bare
   * name, beside the base directory rather than inside it, so none of them
   * is where the status record and the results page look for them.
   */
  lemma ArtifactsAsWrittenOutsideRunDir(baseDir: string, reportDir: string, timestamp: string, prId: int, i: nat, a: string)
    requires baseDir != "" && ArtifactName(a)
    requires '/' !in reportDir && '/' !in timestamp
    ensures ChunkFile(ArtifactDirAsWritten(baseDir, reportDir, timestamp, prId), i, a)
            != ChunkFile(RunDirPath(baseDir, reportDir, timestamp, prId), i, a)
  {
    var name := ArtifactDirAsWritten(baseDir, reportDir, timestamp, prId);
    var q := RunDirPath(baseDir, reportDir, timestamp, prId);
    if reportDir == "" {
      ReportDirNamePlain(timestamp, prId);
      BaseNameOfJoin(baseDir, ReportDirName(timestamp, prId));
    } else {
      BaseNameOfJoin(baseDir, reportDir);
    }
    assert q == DirPrefix(baseDir) + name && name != "" && '/' !in name;
    assert name[|name| - 1] in name;
    assert q[|q| - 1] == name[|name| - 1];
    assert DirPrefix(name) == name + "/" && DirPrefix(q) == q + "/";
    ChunkFileShape(name, i, a);
    ChunkFileShape(q, i, a);
    assert |DirPrefix(baseDir)| > 0;
    assert |ChunkFile(name, i, a)| < |ChunkFile(q, i, a)|;
  }

  /** The workflow object: its collaborators, its reporter and the partition size. */
  class ReviewWorkflow {
    const c: Collaborators
    const reporter: ReviewReporter
    const maxLines: int

    constructor (c: Collaborators, reporter: ReviewReporter, maxLines: int)
      ensures this.c == c && this.reporter == reporter && this.maxLines == maxLines
    {
      this.c := c;
      this.reporter := reporter;
      this.maxLines := maxLines;
    }

    method DetectAnchorsNode(state: ReviewState)
      modifies state
      ensures state.Value() == Detected(old(state.Value()), c)
    {
      var detected := DetectAll(state.fileDiffs, c);
      if detected.Failure? {
        state.error := detected.error;
        state.status := "error";
        return;
      }
      var allAnchors := detected.value;
      var anchorTags := c.orderTags(Keys(allAnchors, AD.TagOf));
      state.anchors := allAnchors;
      state.anchorTags := anchorTags;
      state.status := "anchors_detected";
    }

    method RetrieveRulesNode(state: ReviewState)
      modifies state
      ensures state.Value() == RulesRetrieved(old(state.Value()), c)
    {
      if state.anchorTags == [] {
        state.ruleChunks := [];
      } else {
        var ruleChunks := Retriever.RetrieveRules(state.anchorTags, None, None, c.topK, c.threshold, c.store);
        if ruleChunks.Failure? {
          state.error := ruleChunks.error;
          state.status := "error";
          return;
        }
        state.ruleChunks := ruleChunks.value;
      }
      state.status := "rules_retrieved";
    }

    method BuildPromptNode(state: ReviewState)
      modifies state
      ensures state.Value() == PromptBuilt(old(state.Value()))
    {
      var prompt := PromptBuilder.BuildReviewPrompt(state.fileDiffs, state.ruleChunks);
      if prompt.Failure? {
        state.error := prompt.error;
        state.status := "error";
        return;
      }
      state.prompt := prompt.value;
      state.status := "prompt_built";
    }

    method GenerateReviewNode(state: ReviewState)
      modifies state
      ensures state.Value() == ReviewGenerated(old(state.Value()), c)
    {
      var response := c.generate(state.prompt);
      if response.Failure? {
        state.error := response.error;
        state.status := "error";
        return;
      }
      state.llmResponse := response.value;
      state.status := "review_generated";
    }

    method ParseResponseNode(state: ReviewState)
      modifies state
      ensures state.Value() == ResponseParsed(old(state.Value()), c)
    {
      var findings := RP.ParseFindings(state.llmResponse, c.fenced, c.bare, c.decode);
      var validatedFindings := RP.ValidateFindings(findings);
      state.findings := validatedFindings;
      state.status := "response_parsed";
    }

    method VerifyFindingsNode(state: ReviewState)
      modifies state
      ensures state.Value() == FindingsVerified(old(state.Value()), c)
    {
      var verifiedFindings := FV.VerifyFindings(state.findings, state.sourceCommit, c.fetchFile);
      if verifiedFindings.Failure? {
        state.status := "verification_failed";
        return;
      }
      state.findings := verifiedFindings.value;
      state.status := "findings_verified";
    }

    method PostCommentsNode(state: ReviewState)
      modifies state
      ensures state.Value() == CommentsPosted(old(state.Value()))
    {
      state.status := "complete";
    }

    /** One node of the graph. */
    method RunNode(n: Node, state: ReviewState)
      modifies state
      ensures state.Value() == Step(n, old(state.Value()), c)
    {
      match n
      case DetectAnchors => DetectAnchorsNode(state);
      case RetrieveRules => RetrieveRulesNode(state);
      case BuildPrompt => BuildPromptNode(state);
      case GenerateReview => GenerateReviewNode(state);
      case ParseResponse => ParseResponseNode(state);
      case VerifyFindings => VerifyFindingsNode(state);
      case PostComments => PostCommentsNode(state);
    }

    /** The compiled graph's invocation: its nodes, from the entry along the edges to the end. */
    method Invoke(state: ReviewState)
      modifies state
      ensures state.Value() == Pipeline(old(state.Value()), c)
    {
      ghost var s0 := state.Value();
      for i := 0 to |Graph|
        invariant state.Value() == Walk(Graph[..i], s0, c)
      {
        assert Graph[..i + 1][..i] == Graph[..i];
        RunNode(Graph[i], state);
      }
      assert Graph[..|Graph|] == Graph;
    }

    /** One iteration of the chunk loop: save the diffs, run the graph, save its artifacts. */
    method ProcessChunk(reportDirPath: string, i: nat, chunk: seq<FileDiff>, prId: int, commit: string,
                        total: int, now: int)
      returns (result: State)
      modifies reporter
      ensures result == Pipeline(InitialChunkState(prId, commit, chunk), c)
      ensures reporter.files == ChunkWrites(old(reporter.files), reportDirPath, i, chunk, result, prId, total, now)
      ensures reporter.dirs == ChunkDirsWritten(old(reporter.dirs), reportDirPath, i)
    {
      reporter.SaveChunkData(reportDirPath, i, chunk);
      var chunkState := new ReviewState(InitialChunkState(prId, commit, chunk));
      Invoke(chunkState);
      result := chunkState.Value();
      reporter.SaveAnchors(reportDirPath, i, result.anchors);
      reporter.SaveRules(reportDirPath, i, result.ruleChunks);
      reporter.SavePrompt(reportDirPath, i, result.prompt);
      reporter.SaveResponse(reportDirPath, i, result.llmResponse, result.findings);
      reporter.SavePossibleComments(reportDirPath, i, result.findings);
      reporter.SaveStatus(reportDirPath, ProgressStatus(prId, total, i + 1, now));
    }

    /** The chunk loop of `run`: every chunk in order, collecting errors and findings. */
    method ProcessChunks(reportDirPath: string, chunks: seq<seq<FileDiff>>, prId: int, commit: string, now: int)
      returns (errors: string, allFindings: seq<Finding>)
      modifies reporter
      ensures errors == ErrorLog(ChunkResults(chunks, prId, commit, c))
      ensures allFindings == AllFindings(ChunkResults(chunks, prId, commit, c))
      ensures reporter.files == FilesAfterChunks(old(reporter.files), reportDirPath, chunks,
                                                 ChunkResults(chunks, prId, commit, c), prId, now, |chunks|)
      ensures reporter.dirs == DirsAfterChunks(old(reporter.dirs), reportDirPath, |chunks|)
    {
      ghost var results := ChunkResults(chunks, prId, commit, c);
      ghost var files0 := reporter.files;
      ghost var dirs0 := reporter.dirs;
      errors := "";
      allFindings := [];
      for i := 0 to |chunks|
        invariant errors == ErrorLog(results[..i])
        invariant allFindings == AllFindings(results[..i])
        invariant reporter.files == FilesAfterChunks(files0, reportDirPath, chunks, results, prId, now, i)
        invariant reporter.dirs == DirsAfterChunks(dirs0, reportDirPath, i)
      {
        LogsSnoc(results, i);
        var resultState := ProcessChunk(reportDirPath, i, chunks[i], prId, commit, |chunks|, now);
        assert resultState == results[i];
        errors := errors + ChunkError(i, resultState);
        if resultState.findings != [] {
          allFindings := allFindings + resultState.findings;
        }
      }
      assert results[..|chunks|] == results;
    }

    /**
     * `run`: fetch the diff and the source commit, partition, create or
     * locate the run directory, record the start, process every chunk and
     * record the end. A failed fetch ends the run in `error` before anything
     * is written. Every chunk's artifacts go under the run directory, and
     * every status record carries the clock reading `now`.
     */
    method Run(prId: int, reportDir: string, fetched: Result<seq<FileDiff>, string>,
               commit: Result<string, string>, timestamp: string, now: int)
      returns (finalState: ReviewState)
      modifies reporter
      ensures fresh(finalState)
      ensures finalState.Value() == RunResult(prId, reportDir, fetched, commit, reporter.baseDir, timestamp, maxLines, c)
      ensures reporter.files == RunFiles(old(reporter.files), prId, reportDir, fetched, commit,
                                         reporter.baseDir, timestamp, now, maxLines, c)
      ensures reporter.dirs == RunDirs(old(reporter.dirs), prId, reportDir, fetched, commit,
                                       reporter.baseDir, timestamp, maxLines)
    {
      var initial := InitialRunState(prId);
      if fetched.Failure? {
        finalState := new ReviewState(Fail(initial, fetched.error));
        return;
      }
      if commit.Failure? {
        finalState := new ReviewState(Fail(initial, commit.error));
        return;
      }
      var name, errors, allFindings := ReviewFetched(prId, reportDir, fetched, commit, timestamp, now);
      var status := if errors == "" then "complete" else "partial_error";
      finalState := new ReviewState(initial.(sourceCommit := commit.value, fileDiffs := fetched.value, reportDir := name,
                                             findings := allFindings, status := status, error := errors));
    }

    /** The run directory: a new one when no name is given, else the named one under the base directory. */
    method LocateReportDir(prId: int, reportDir: string, timestamp: string) returns (reportDirPath: string, name: string)
      modifies reporter
      ensures reportDirPath == RunDirPath(reporter.baseDir, reportDir, timestamp, prId)
      ensures name == RunDirName(reporter.baseDir, reportDir, timestamp, prId)
      ensures reporter.dirs == old(reporter.dirs) + (if reportDir == "" then {reportDirPath} else {})
      ensures reporter.files == old(reporter.files)
    {
      if reportDir == "" {
        reportDirPath := reporter.CreateReportDir(prId, timestamp);
        name := BaseName(reportDirPath);
      } else {
        reportDirPath := PathJoin(reporter.baseDir, reportDir);
        name := reportDir;
      }
    }

    /**
     * `run` once both fetches have succeeded: partition, locate the run
     * directory, record the start, process the chunks, record the end. The
     * results are the directory's name, the error log and the findings.
     */
    method ReviewFetched(prId: int, reportDir: string, fetched: Result<seq<FileDiff>, string>,
                         commit: Result<string, string>, timestamp: string, now: int)
      returns (name: string, errors: string, allFindings: seq<Finding>)
      requires fetched.Success? && commit.Success?
      modifies reporter
      ensures name == RunDirName(reporter.baseDir, reportDir, timestamp, prId)
      ensures errors == ErrorLog(ChunkResults(Partitioner.Partition(fetched.value, maxLines), prId, commit.value, c))
      ensures allFindings == AllFindings(ChunkResults(Partitioner.Partition(fetched.value, maxLines), prId, commit.value, c))
      ensures reporter.files == RunFiles(old(reporter.files), prId, reportDir, fetched, commit,
                                         reporter.baseDir, timestamp, now, maxLines, c)
      ensures reporter.dirs == RunDirs(old(reporter.dirs), prId, reportDir, fetched, commit,
                                       reporter.baseDir, timestamp, maxLines)
    {
      var fileDiffs := fetched.value;
      var hash := commit.value;
      var chunks := Partitioner.PartitionDiffs(fileDiffs, maxLines);
      var reportDirPath;
      reportDirPath, name := LocateReportDir(prId, reportDir, timestamp);
      reporter.SaveStatus(reportDirPath, StartStatus(prId, |chunks|, now));
      errors, allFindings := ProcessChunks(reportDirPath, chunks, prId, hash, now);
      var status := if errors == "" then "complete" else "partial_error";
      reporter.SaveStatus(reportDirPath, EndStatus(status, prId, |chunks|, now, errors));
    }
  }
}
