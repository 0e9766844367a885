/**
 * The review artifacts on disk: a base directory holding one directory per
 * review run, named by a timestamp and the pull request id; inside it a
 * status record and one sub-directory per chunk with the chunk's diffs,
 * anchors, rules, prompt, raw and parsed response, and comments.
 *
 * The file system is the reporter's two fields: the files written, by path,
 * with what they hold, and the directories known to exist. The clock is the
 * `timestamp` parameter, already formatted as `%Y%m%d_%H%M%S`.
 */
module Reporter {
  import opened Wrappers
  import opened Text
  import opened Models

  /** A value of a status record; times are the clock's readings in seconds. */
  datatype StatusValue = SText(text: string) | SCount(count: int) | STime(seconds: int)

  type StatusRecord = map<string, StatusValue>

  /** What a written file holds: a JSON dump of records, plain text, or a status record. */
  datatype Artifact =
    | DiffsFile(diffs: seq<FileDiff>)
    | AnchorsFile(anchors: seq<Anchor>)
    | RulesFile(rules: seq<RuleChunk>)
    | TextFile(text: string)
    | FindingsFile(findings: seq<Finding>)
    | StatusFile(status: StatusRecord)

  const DefaultBaseDir := "reports"

  const DiffsName := "diffs.json"
  const AnchorsName := "anchors.json"
  const RulesName := "rules.json"
  const PromptName := "prompt.txt"
  const RawResponseName := "raw_response.txt"
  const ParsedResponseName := "parsed_response.json"
  const PostedCommentsName := "posted_comments.json"
  const PossibleCommentsName := "possible_comments.json"
  const StatusName := "status.json"

  // ---------------------------------------------------------------------------
  // Paths

  /** The directory part `os.path.join` puts before a relative name. */
  function DirPrefix(a: string): string {
    if a == "" || a[|a| - 1] == '/' then a else a + "/"
  }

  /** `os.path.join(a, b)`: an absolute `b` replaces `a`; otherwise one separator joins them. */
  function PathJoin(a: string, b: string): string {
    if |b| > 0 && b[0] == '/' then b else DirPrefix(a) + b
  }

  /** `os.path.basename`: what follows the last separator. */
  function BaseName(p: string): string {
    var parts := Split(p, '/');
    parts[|parts| - 1]
  }

  /** Joining a plain name and taking the base name gives the name back. */
  lemma BaseNameOfJoin(a: string, b: string)
    requires '/' !in b
    ensures BaseName(PathJoin(a, b)) == b
    ensures PathJoin(a, b) == DirPrefix(a) + b
  {
    assert |b| > 0 ==> b[0] in b;
    SplitWithoutSep(b, '/');
    var d := DirPrefix(a);
    if d != "" {
      var x := d[..|d| - 1];
      assert d == x + ['/'];
      assert d + b == x + ['/'] + b;
      SplitAround(x, b, '/');
      assert PathJoin(a, b) == d + b;
      var parts := Split(d + b, '/');
      assert parts == Split(x, '/') + [b];
      assert parts[|parts| - 1] == b;
    } else {
      assert PathJoin(a, b) == b;
    }
  }

  /** The run directory's name: the timestamp, an underscore and the pull request id. */
  function ReportDirName(timestamp: string, prId: int): string {
    timestamp + "_" + IntToString(prId)
  }

  /** Two runs started in the same second for different pull requests get different directories. */
  lemma ReportDirNamesDiffer(timestamp: string, m: int, n: int)
    requires m != n
    ensures ReportDirName(timestamp, m) != ReportDirName(timestamp, n)
  {
    var p := timestamp + "_";
    if ReportDirName(timestamp, m) == ReportDirName(timestamp, n) {
      assert IntToString(m) == ReportDirName(timestamp, m)[|p|..];
      assert IntToString(n) == ReportDirName(timestamp, n)[|p|..];
      ParseIntToString(m);
      ParseIntToString(n);
    }
  }

  function ChunkDirName(chunkId: nat): string {
    "chunk_" + NatToString(chunkId)
  }

  /** `_get_chunk_dir`'s path. */
  function ChunkDir(reportDir: string, chunkId: nat): string {
    PathJoin(reportDir, ChunkDirName(chunkId))
  }

  /** The path of the artifact `name` of chunk `chunkId`. */
  function ChunkFile(reportDir: string, chunkId: nat, name: string): string {
    PathJoin(ChunkDir(reportDir, chunkId), name)
  }

  function StatusPath(reportDir: string): string {
    PathJoin(reportDir, StatusName)
  }

  /** The nine artifact names; none holds a separator. */
  predicate ArtifactName(name: string) {
    name in {DiffsName, AnchorsName, RulesName, PromptName, RawResponseName, ParsedResponseName,
             PostedCommentsName, PossibleCommentsName, StatusName}
  }

  /** A name `os.path.join` appends rather than letting it replace the directory. */
  predicate Relative(name: string) {
    |name| == 0 || name[0] != '/'
  }

  lemma ArtifactNamesRelative(name: string)
    requires ArtifactName(name)
    ensures Relative(name)
  {
  }

  lemma ChunkFileShape(reportDir: string, chunkId: nat, name: string)
    requires Relative(name)
    ensures ChunkFile(reportDir, chunkId, name) == DirPrefix(reportDir) + ChunkDirName(chunkId) + "/" + name
  {
    var c := ChunkDirName(chunkId);
    assert c[0] == 'c' && c[|c| - 1] in NatToString(chunkId);
    assert ChunkDir(reportDir, chunkId) == DirPrefix(reportDir) + c;
  }

  /** How many digits `s` starts with. */
  function DigitPrefix(s: string): nat
    decreases |s|
  {
    if |s| == 0 || !IsDigit(s[0]) then 0 else 1 + DigitPrefix(s[1..])
  }

  lemma {:induction false} DigitPrefixBeforeSlash(d: string, a: string)
    requires AllDigits(d)
    ensures DigitPrefix(d + "/" + a) == |d|
    decreases |d|
  {
    if |d| > 0 {
      assert (d + "/" + a)[1..] == d[1..] + "/" + a;
      DigitPrefixBeforeSlash(d[1..], a);
    }
  }

  /** A run of digits, a separator and a name: both parts can be read back. */
  lemma DigitsThenName(di: string, a: string, dj: string, b: string)
    requires AllDigits(di) && AllDigits(dj)
    requires di + "/" + a == dj + "/" + b
    ensures di == dj && a == b
  {
    var p := di + "/" + a;
    DigitPrefixBeforeSlash(di, a);
    DigitPrefixBeforeSlash(dj, b);
    assert |di| == |dj|;
    assert di == p[..|di|] == dj;
    assert a == p[|di| + 1..] == b;
  }

  /**
   * Within one run directory, the artifacts of different chunks, the
   * different artifacts of one chunk, and the status record all have
   * different paths: no write overwrites another kind of file.
   */
  lemma ChunkFilesDistinct(reportDir: string, i: nat, a: string, j: nat, b: string)
    requires Relative(a) && Relative(b)
    requires i != j || a != b
    ensures ChunkFile(reportDir, i, a) != ChunkFile(reportDir, j, b)
    ensures ChunkFile(reportDir, i, a) != StatusPath(reportDir)
  {
    var d := DirPrefix(reportDir);
    var x := NatToString(i) + "/" + a;
    var y := NatToString(j) + "/" + b;
    ChunkFileAfterPrefix(reportDir, i, a);
    ChunkFileAfterPrefix(reportDir, j, b);
    var p := ChunkFile(reportDir, i, a);
    var q := ChunkFile(reportDir, j, b);
    assert StatusPath(reportDir) == d + StatusName;
    assert p[|d|] == 'c' != StatusName[0];
    if p == q {
      assert x == p[|d| + 6..] == q[|d| + 6..] == y;
      DigitsThenName(NatToString(i), a, NatToString(j), b);
      NatToStringInjective(i, j);
    }
  }

  /** No chunk artifact is the status record. */
  lemma ChunkFileNotStatus(reportDir: string, i: nat, a: string)
    requires Relative(a)
    ensures ChunkFile(reportDir, i, a) != StatusPath(reportDir)
  {
    var d := DirPrefix(reportDir);
    ChunkFileAfterPrefix(reportDir, i, a);
    assert StatusPath(reportDir) == d + StatusName;
    assert ChunkFile(reportDir, i, a)[|d|] == 'c' != StatusName[0];
  }

  lemma ChunkFileAfterPrefix(reportDir: string, i: nat, a: string)
    requires Relative(a)
    ensures var p := ChunkFile(reportDir, i, a);
            var d := DirPrefix(reportDir);
            |p| > |d| + 6 && p[|d|] == 'c' && p[|d| + 6..] == NatToString(i) + "/" + a
  {
    ChunkFileShape(reportDir, i, a);
    var d := DirPrefix(reportDir);
    assert ChunkFile(reportDir, i, a) == d + "chunk_" + (NatToString(i) + "/" + a);
  }

  // ---------------------------------------------------------------------------
  // The reporter

  class ReviewReporter {
    const baseDir: string
    /** The files written so far, by path. */
    var files: map<string, Artifact>
    /** The directories known to exist. */
    var dirs: set<string>

    /** `__init__`: the base directory exists afterwards. */
    constructor (baseDir: string, existingDirs: set<string>)
      ensures this.baseDir == baseDir
      ensures files == map[] && dirs == existingDirs + {baseDir}
    {
      this.baseDir := baseDir;
      files := map[];
      dirs := existingDirs + {baseDir};
    }

    /** `create_report_dir`: the run directory under the base directory, created if absent. */
    method CreateReportDir(prId: int, timestamp: string) returns (reportPath: string)
      modifies this
      ensures reportPath == PathJoin(baseDir, ReportDirName(timestamp, prId))
      ensures dirs == old(dirs) + {reportPath} && files == old(files)
    {
      var dirName := ReportDirName(timestamp, prId);
      reportPath := PathJoin(baseDir, dirName);
      if reportPath !in dirs {
        dirs := dirs + {reportPath};
      }
    }

    /**
     * `_get_chunk_dir`: the chunk's directory, created with its run
     * directory if absent.
     */
    method GetChunkDir(reportDir: string, chunkId: nat) returns (chunkPath: string)
      modifies this
      ensures chunkPath == ChunkDir(reportDir, chunkId)
      ensures dirs == old(dirs) + {chunkPath} + (if reportDir == "" then {} else {reportDir})
      ensures files == old(files)
    {
      chunkPath := PathJoin(reportDir, ChunkDirName(chunkId));
      if chunkPath !in dirs {
        dirs := dirs + {chunkPath} + (if reportDir == "" then {} else {reportDir});
      } else {
        dirs := dirs + (if reportDir == "" then {} else {reportDir});
      }
    }

    /** Every save below writes one artifact of the chunk, creating its directory. */
    method SaveArtifact(reportDir: string, chunkId: nat, name: string, content: Artifact)
      modifies this
      ensures files == old(files)[ChunkFile(reportDir, chunkId, name) := content]
      ensures dirs == old(dirs) + {ChunkDir(reportDir, chunkId)} + (if reportDir == "" then {} else {reportDir})
    {
      var path := GetChunkDir(reportDir, chunkId);
      var filePath := PathJoin(path, name);
      files := files[filePath := content];
    }

    /** `save_chunk_data` */
    method SaveChunkData(reportDir: string, chunkId: nat, fileDiffs: seq<FileDiff>)
      modifies this
      ensures files == old(files)[ChunkFile(reportDir, chunkId, DiffsName) := DiffsFile(fileDiffs)]
      ensures dirs == old(dirs) + {ChunkDir(reportDir, chunkId)} + (if reportDir == "" then {} else {reportDir})
    {
      SaveArtifact(reportDir, chunkId, DiffsName, DiffsFile(fileDiffs));
    }

    /** `save_anchors` */
    method SaveAnchors(reportDir: string, chunkId: nat, anchors: seq<Anchor>)
      modifies this
      ensures files == old(files)[ChunkFile(reportDir, chunkId, AnchorsName) := AnchorsFile(anchors)]
      ensures dirs == old(dirs) + {ChunkDir(reportDir, chunkId)} + (if reportDir == "" then {} else {reportDir})
    {
      SaveArtifact(reportDir, chunkId, AnchorsName, AnchorsFile(anchors));
    }

    /** `save_rules` */
    method SaveRules(reportDir: string, chunkId: nat, rules: seq<RuleChunk>)
      modifies this
      ensures files == old(files)[ChunkFile(reportDir, chunkId, RulesName) := RulesFile(rules)]
      ensures dirs == old(dirs) + {ChunkDir(reportDir, chunkId)} + (if reportDir == "" then {} else {reportDir})
    {
      SaveArtifact(reportDir, chunkId, RulesName, RulesFile(rules));
    }

    /** `save_prompt` */
    method SavePrompt(reportDir: string, chunkId: nat, prompt: string)
      modifies this
      ensures files == old(files)[ChunkFile(reportDir, chunkId, PromptName) := TextFile(prompt)]
      ensures dirs == old(dirs) + {ChunkDir(reportDir, chunkId)} + (if reportDir == "" then {} else {reportDir})
    {
      SaveArtifact(reportDir, chunkId, PromptName, TextFile(prompt));
    }

    /** `save_response`: the raw text, then the parsed findings. */
    method SaveResponse(reportDir: string, chunkId: nat, rawResponse: string, parsedFindings: seq<Finding>)
      modifies this
      ensures files == old(files)[ChunkFile(reportDir, chunkId, RawResponseName) := TextFile(rawResponse)]
                                 [ChunkFile(reportDir, chunkId, ParsedResponseName) := FindingsFile(parsedFindings)]
      ensures dirs == old(dirs) + {ChunkDir(reportDir, chunkId)} + (if reportDir == "" then {} else {reportDir})
    {
      var path := GetChunkDir(reportDir, chunkId);
      files := files[PathJoin(path, RawResponseName) := TextFile(rawResponse)];
      files := files[PathJoin(path, ParsedResponseName) := FindingsFile(parsedFindings)];
    }

    /** `save_comments` */
    method SaveComments(reportDir: string, chunkId: nat, findings: seq<Finding>)
      modifies this
      ensures files == old(files)[ChunkFile(reportDir, chunkId, PostedCommentsName) := FindingsFile(findings)]
      ensures dirs == old(dirs) + {ChunkDir(reportDir, chunkId)} + (if reportDir == "" then {} else {reportDir})
    {
      SaveArtifact(reportDir, chunkId, PostedCommentsName, FindingsFile(findings));
    }

    /** `save_possible_comments` */
    method SavePossibleComments(reportDir: string, chunkId: nat, findings: seq<Finding>)
      modifies this
      ensures files == old(files)[ChunkFile(reportDir, chunkId, PossibleCommentsName) := FindingsFile(findings)]
      ensures dirs == old(dirs) + {ChunkDir(reportDir, chunkId)} + (if reportDir == "" then {} else {reportDir})
    {
      SaveArtifact(reportDir, chunkId, PossibleCommentsName, FindingsFile(findings));
    }

    /** `save_status`: the run's status record, replacing the previous one. */
    method SaveStatus(reportDir: string, statusData: StatusRecord)
      modifies this
      ensures files == old(files)[StatusPath(reportDir) := StatusFile(statusData)]
      ensures dirs == old(dirs)
    {
      files := files[PathJoin(reportDir, StatusName) := StatusFile(statusData)];
    }
  }
}
