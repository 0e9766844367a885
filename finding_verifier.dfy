/**
 * The verification step of the review graph: findings are grouped by file,
 * each file is fetched once at the pull request's source commit, and each
 * finding's line is re-anchored to where the code it quotes really is.
 *
 * The file fetch is the parameter `fetch(path, commit)`; its failure is an
 * exception that aborts the step.
 */
module FindingVerifier {
  import opened Wrappers
  import opened Text
  import opened Models

  // ---------------------------------------------------------------------------
  // Grouping by file

  /** The files the findings name. */
  function Files(fs: seq<Finding>): set<string> {
    set f | f in fs :: f.file
  }

  /** The findings' files, each once, in order of first appearance: the grouping dict's key order. */
  function FileOrder(fs: seq<Finding>): seq<string>
    decreases |fs|
  {
    if |fs| == 0 then []
    else
      var order := FileOrder(fs[..|fs| - 1]);
      if fs[|fs| - 1].file in order then order else order + [fs[|fs| - 1].file]
  }

  predicate Distinct(xs: seq<string>) {
    forall i, j :: 0 <= i < j < |xs| ==> xs[i] != xs[j]
  }

  /** Each file is listed once, and exactly the files of the findings are listed. */
  lemma {:induction false} FileOrderCorrect(fs: seq<Finding>)
    ensures Distinct(FileOrder(fs))
    ensures forall file :: file in FileOrder(fs) <==> file in Files(fs)
    decreases |fs|
  {
    if |fs| > 0 {
      var init := fs[..|fs| - 1];
      var last := fs[|fs| - 1];
      FileOrderCorrect(init);
      assert fs == init + [last];
      assert Files(fs) == Files(init) + {last.file};
    }
  }

  /** The findings on `file`, in their order. */
  function ForFile(fs: seq<Finding>, file: string): seq<Finding>
    decreases |fs|
  {
    if |fs| == 0 then []
    else ForFile(fs[..|fs| - 1], file) + (if fs[|fs| - 1].file == file then [fs[|fs| - 1]] else [])
  }

  lemma {:induction false} ForFileAppend(xs: seq<Finding>, ys: seq<Finding>, file: string)
    ensures ForFile(xs + ys, file) == ForFile(xs, file) + ForFile(ys, file)
    decreases |ys|
  {
    if |ys| == 0 {
      assert xs + ys == xs;
    } else {
      var init := ys[..|ys| - 1];
      ForFileAppend(xs, init, file);
      assert (xs + ys)[..|xs + ys| - 1] == xs + init;
    }
  }

  lemma {:induction false} ForFileOfForFile(fs: seq<Finding>, g: string, file: string)
    ensures ForFile(ForFile(fs, g), file) == if g == file then ForFile(fs, file) else []
    decreases |fs|
  {
    if |fs| > 0 {
      var init := fs[..|fs| - 1];
      var last := fs[|fs| - 1];
      ForFileOfForFile(init, g, file);
      var tail := if last.file == g then [last] else [];
      ForFileAppend(ForFile(init, g), tail, file);
      if last.file == g {
        assert ForFile(tail, file) == ForFile([], file) + (if last.file == file then [last] else []);
      }
    }
  }

  lemma {:induction false} ForFileAbsent(fs: seq<Finding>, file: string)
    requires file !in Files(fs)
    ensures ForFile(fs, file) == []
    decreases |fs|
  {
    if |fs| > 0 {
      var init := fs[..|fs| - 1];
      assert fs[|fs| - 1] in fs;
      assert Files(init) <= Files(fs);
      ForFileAbsent(init, file);
    }
  }

  /** The groups of `files`, one after another. */
  function Grouped(fs: seq<Finding>, files: seq<string>): seq<Finding>
    decreases |files|
  {
    if |files| == 0 then []
    else Grouped(fs, files[..|files| - 1]) + ForFile(fs, files[|files| - 1])
  }

  /** The findings as the loop over the grouping dict visits them. */
  function Regroup(fs: seq<Finding>): seq<Finding> {
    Grouped(fs, FileOrder(fs))
  }

  lemma {:induction false} ForFileGrouped(fs: seq<Finding>, files: seq<string>, file: string)
    requires Distinct(files)
    ensures ForFile(Grouped(fs, files), file) == if file in files then ForFile(fs, file) else []
    decreases |files|
  {
    if |files| > 0 {
      var init := files[..|files| - 1];
      var last := files[|files| - 1];
      assert Distinct(init);
      assert last !in init;
      ForFileGrouped(fs, init, file);
      assert Grouped(fs, files) == Grouped(fs, init) + ForFile(fs, last);
      ForFileAppend(Grouped(fs, init), ForFile(fs, last), file);
      ForFileOfForFile(fs, last, file);
      assert file in files <==> file in init || file == last;
    }
  }

  /** Regrouping keeps every file's findings, in their order. */
  lemma RegroupPerFile(fs: seq<Finding>, file: string)
    ensures ForFile(Regroup(fs), file) == ForFile(fs, file)
  {
    FileOrderCorrect(fs);
    ForFileGrouped(fs, FileOrder(fs), file);
    if file !in Files(fs) {
      ForFileAbsent(fs, file);
    }
  }

  lemma {:induction false} GroupedSnoc(fs: seq<Finding>, x: Finding, files: seq<string>)
    requires Distinct(files)
    ensures multiset(Grouped(fs + [x], files))
            == multiset(Grouped(fs, files)) + (if x.file in files then multiset{x} else multiset{})
    decreases |files|
  {
    if |files| > 0 {
      var init := files[..|files| - 1];
      var last := files[|files| - 1];
      assert Distinct(init);
      assert last !in init;
      GroupedSnoc(fs, x, init);
      assert (fs + [x])[..|fs + [x]| - 1] == fs;
      assert ForFile(fs + [x], last) == ForFile(fs, last) + (if x.file == last then [x] else []);
      assert Grouped(fs + [x], files) == Grouped(fs + [x], init) + ForFile(fs + [x], last);
      assert Grouped(fs, files) == Grouped(fs, init) + ForFile(fs, last);
      assert x.file in files <==> x.file in init || x.file == last;
    }
  }

  lemma {:induction false} GroupedPermutation(fs: seq<Finding>, files: seq<string>)
    requires Distinct(files) && forall f :: f in fs ==> f.file in files
    ensures multiset(Grouped(fs, files)) == multiset(fs)
    decreases |fs|
  {
    if |fs| == 0 {
      GroupedEmpty(files);
    } else {
      var init := fs[..|fs| - 1];
      var last := fs[|fs| - 1];
      assert fs == init + [last];
      GroupedPermutation(init, files);
      GroupedSnoc(init, last, files);
    }
  }

  lemma {:induction false} GroupedEmpty(files: seq<string>)
    ensures Grouped([], files) == []
    decreases |files|
  {
    if |files| > 0 {
      GroupedEmpty(files[..|files| - 1]);
    }
  }

  /** Regrouping loses and adds nothing: it is a permutation of the findings. */
  lemma RegroupPermutation(fs: seq<Finding>)
    ensures multiset(Regroup(fs)) == multiset(fs)
    ensures |Regroup(fs)| == |fs|
  {
    FileOrderCorrect(fs);
    GroupedPermutation(fs, FileOrder(fs));
    assert |multiset(Regroup(fs))| == |multiset(fs)|;
  }

  // ---------------------------------------------------------------------------
  // Re-anchoring one finding

  /** The reported line is in the file and holds the snippet. */
  predicate ReportedLineHolds(f: Finding, lines: seq<string>, snippet: string) {
    f.line.Some? && f.line.value != 0 && 0 <= f.line.value - 1 < |lines|
    && Contains(lines[f.line.value - 1], snippet)
  }

  /** The 1-based number of the first line holding `snippet`. */
  function FirstLineWith(lines: seq<string>, snippet: string): (n: Option<nat>)
    ensures n.Some? ==> 1 <= n.value <= |lines| && Contains(lines[n.value - 1], snippet)
    ensures n.Some? ==> forall j :: 0 <= j < n.value - 1 ==> !Contains(lines[j], snippet)
    ensures n.None? ==> forall j :: 0 <= j < |lines| ==> !Contains(lines[j], snippet)
    decreases |lines|
  {
    if |lines| == 0 then None
    else if Contains(lines[0], snippet) then Some(1)
    else
      match FirstLineWith(lines[1..], snippet)
      case None => None
      case Some(n) => Some(n + 1)
  }

  /**
   * The finding after verification against a file of `lines`: without a
   * snippet it stays; with one, the stripped snippet keeps a reported line
   * that holds it, and otherwise moves the finding to the first line holding
   * it; a snippet found nowhere leaves the finding as it was.
   */
  function CorrectLine(f: Finding, lines: seq<string>): Finding {
    if f.codeSnippet == "" then f
    else
      var snippet := Strip(f.codeSnippet);
      if ReportedLineHolds(f, lines, snippet) then f
      else
        match FirstLineWith(lines, snippet)
        case Some(n) => f.(line := Some(n))
        case None => f
  }

  /**
   * Only the line changes, and it changes exactly when the finding quotes
   * code, its reported line does not hold it, and a line elsewhere does: the
   * new line is then the first one that holds it.
   */
  lemma CorrectLineMoves(f: Finding, lines: seq<string>)
    ensures CorrectLine(f, lines) == f.(line := CorrectLine(f, lines).line)
    ensures CorrectLine(f, lines).line != f.line <==>
              f.codeSnippet != "" && !ReportedLineHolds(f, lines, Strip(f.codeSnippet))
              && FirstLineWith(lines, Strip(f.codeSnippet)).Some?
              && f.line != Some(FirstLineWith(lines, Strip(f.codeSnippet)).value)
    ensures CorrectLine(f, lines).line != f.line ==>
              CorrectLine(f, lines).line == Some(FirstLineWith(lines, Strip(f.codeSnippet)).value)
  {
  }

  /** A finding whose snippet is found stands on a line that holds it. */
  lemma CorrectLineFound(f: Finding, lines: seq<string>)
    requires f.codeSnippet != ""
    requires ReportedLineHolds(f, lines, Strip(f.codeSnippet)) || FirstLineWith(lines, Strip(f.codeSnippet)).Some?
    ensures ReportedLineHolds(CorrectLine(f, lines), lines, Strip(f.codeSnippet))
  {
  }

  /** Verifying a verified finding again changes nothing. */
  lemma CorrectLineIdempotent(f: Finding, lines: seq<string>)
    ensures CorrectLine(CorrectLine(f, lines), lines) == CorrectLine(f, lines)
  {
    var g := CorrectLine(f, lines);
    if f.codeSnippet != "" && g != f {
      CorrectLineFound(f, lines);
    }
  }

  /**
   * A snippet of white space alone strips to nothing, which every line
   * holds: a finding without a usable line lands on line 1.
   */
  lemma BlankSnippetLandsOnFirstLine(f: Finding, lines: seq<string>)
    requires f.codeSnippet != "" && Strip(f.codeSnippet) == "" && |lines| > 0
    requires !ReportedLineHolds(f, lines, "")
    ensures CorrectLine(f, lines).line == Some(1)
  {
    assert Contains(lines[0], "");
  }

  /** The search loop: the 1-based number of the first line holding `snippet`, or -1. */
  method SearchLines(lines: seq<string>, snippet: string) returns (foundLine: int)
    ensures foundLine == match FirstLineWith(lines, snippet) case Some(n) => n case None => -1
  {
    foundLine := -1;
    var i := 0;
    while i < |lines|
      invariant 0 <= i <= |lines|
      invariant forall j :: 0 <= j < i ==> !Contains(lines[j], snippet)
    {
      if Contains(lines[i], snippet) {
        return i + 1;
      }
      i := i + 1;
    }
  }

  /** The body of the inner loop for one finding. */
  method CorrectFinding(finding: Finding, lines: seq<string>) returns (verified: Finding)
    ensures verified == CorrectLine(finding, lines)
  {
    if finding.codeSnippet == "" {
      return finding;
    }
    var foundLine := -1;
    var snippet := Strip(finding.codeSnippet);
    if finding.line.Some? && finding.line.value != 0 && 0 <= finding.line.value - 1 < |lines| {
      if Contains(lines[finding.line.value - 1], snippet) {
        foundLine := finding.line.value;
      }
    }
    if foundLine == -1 {
      foundLine := SearchLines(lines, snippet);
    }
    if foundLine != -1 {
      verified := finding.(line := Some(foundLine));
    } else {
      verified := finding;
    }
  }

  // ---------------------------------------------------------------------------
  // The whole step

  /** One file's group after verification against the fetched content. */
  function VerifiedGroup(group: seq<Finding>, content: string): (vs: seq<Finding>)
    ensures |vs| == |group|
    ensures forall k :: 0 <= k < |group| ==> vs[k] == group[k].(line := vs[k].line)
    ensures content == "" ==> vs == group
  {
    if content == "" then group
    else
      var lines := Split(content, '\n');
      seq(|group|, k requires 0 <= k < |group| => CorrectLine(group[k], lines))
  }

  /** The groups of `files` verified in turn; the first failed fetch aborts. */
  function VerifiedGroups(fs: seq<Finding>, files: seq<string>, commit: string,
                          fetch: (string, string) -> Result<string, string>): Result<seq<Finding>, string>
    decreases |files|
  {
    if |files| == 0 then Success([])
    else
      match VerifiedGroups(fs, files[..|files| - 1], commit, fetch)
      case Failure(e) => Failure(e)
      case Success(vs) =>
        match fetch(files[|files| - 1], commit)
        case Failure(e) => Failure(e)
        case Success(content) => Success(vs + VerifiedGroup(ForFile(fs, files[|files| - 1]), content))
  }

  /** What the verification step produces for the findings. */
  function Verified(fs: seq<Finding>, commit: string, fetch: (string, string) -> Result<string, string>)
    : Result<seq<Finding>, string>
  {
    VerifiedGroups(fs, FileOrder(fs), commit, fetch)
  }

  lemma {:induction false} VerifiedGroupsShape(fs: seq<Finding>, files: seq<string>, commit: string,
                                               fetch: (string, string) -> Result<string, string>)
    ensures VerifiedGroups(fs, files, commit, fetch).Success? ==>
              var vs := VerifiedGroups(fs, files, commit, fetch).value;
              |vs| == |Grouped(fs, files)|
              && forall k :: 0 <= k < |vs| ==> vs[k] == Grouped(fs, files)[k].(line := vs[k].line)
    decreases |files|
  {
    if |files| > 0 {
      VerifiedGroupsShape(fs, files[..|files| - 1], commit, fetch);
    }
  }

  /**
   * A successful verification returns the findings regrouped by file, each
   * with at most its line changed: nothing is dropped, added or reworded.
   */
  lemma VerifiedKeepsFindings(fs: seq<Finding>, commit: string, fetch: (string, string) -> Result<string, string>)
    requires Verified(fs, commit, fetch).Success?
    ensures |Regroup(fs)| == |fs|
    ensures |Verified(fs, commit, fetch).value| == |fs|
    ensures forall k :: 0 <= k < |fs| ==>
              Verified(fs, commit, fetch).value[k] == Regroup(fs)[k].(line := Verified(fs, commit, fetch).value[k].line)
  {
    VerifiedGroupsShape(fs, FileOrder(fs), commit, fetch);
    RegroupPermutation(fs);
  }

  /** Once a fetch has failed, the later groups do not matter. */
  lemma {:induction false} FailureSticks(fs: seq<Finding>, files: seq<string>, j: nat, commit: string,
                                         fetch: (string, string) -> Result<string, string>)
    requires j <= |files| && VerifiedGroups(fs, files[..j], commit, fetch).Failure?
    ensures VerifiedGroups(fs, files, commit, fetch) == VerifiedGroups(fs, files[..j], commit, fetch)
    decreases |files| - j
  {
    if j < |files| {
      assert files[..j + 1][..j] == files[..j];
      FailureSticks(fs, files, j + 1, commit, fetch);
    } else {
      assert files[..j] == files;
    }
  }

  /** `findings_by_file`: the files in first-appearance order and each file's findings. */
  method GroupByFile(findings: seq<Finding>) returns (order: seq<string>, byFile: map<string, seq<Finding>>)
    ensures order == FileOrder(findings)
    ensures forall file :: file in byFile <==> file in order
    ensures forall file :: file in order ==> byFile[file] == ForFile(findings, file)
  {
    order := [];
    byFile := map[];
    for i := 0 to |findings|
      invariant order == FileOrder(findings[..i])
      invariant forall file :: file in byFile <==> file in order
      invariant forall file :: file in order ==> byFile[file] == ForFile(findings[..i], file)
    {
      var finding := findings[i];
      assert findings[..i + 1][..i] == findings[..i];
      if finding.file !in byFile {
        byFile := byFile[finding.file := []];
        order := order + [finding.file];
        FileOrderCorrect(findings[..i]);
        ForFileAbsent(findings[..i], finding.file);
      }
      byFile := byFile[finding.file := byFile[finding.file] + [finding]];
    }
    assert findings[..|findings|] == findings;
  }

  /** The inner loop over one file's findings. */
  method CorrectGroup(group: seq<Finding>, lines: seq<string>) returns (vs: seq<Finding>)
    ensures vs == seq(|group|, k requires 0 <= k < |group| => CorrectLine(group[k], lines))
  {
    vs := [];
    for k := 0 to |group|
      invariant vs == seq(k, m requires 0 <= m < k => CorrectLine(group[m], lines))
    {
      var verified := CorrectFinding(group[k], lines);
      vs := vs + [verified];
    }
  }

  /** `_verify_findings`' loop: the verified findings, or the fetch failure that aborts it. */
  method VerifyFindings(findings: seq<Finding>, commit: string, fetch: (string, string) -> Result<string, string>)
    returns (r: Result<seq<Finding>, string>)
    ensures r == Verified(findings, commit, fetch)
  {
    var order, byFile := GroupByFile(findings);
    var verifiedFindings: seq<Finding> := [];
    for i := 0 to |order|
      invariant VerifiedGroups(findings, order[..i], commit, fetch) == Success(verifiedFindings)
    {
      assert order[..i + 1][..i] == order[..i];
      var filePath := order[i];
      var content := fetch(filePath, commit);
      if content.Failure? {
        FailureSticks(findings, order, i + 1, commit, fetch);
        return Failure(content.error);
      }
      var group := byFile[filePath];
      if content.value == "" {
        verifiedFindings := verifiedFindings + group;
      } else {
        var lines := Split(content.value, '\n');
        var vs := CorrectGroup(group, lines);
        verifiedFindings := verifiedFindings + vs;
      }
    }
    assert order[..|order|] == order;
    r := Success(verifiedFindings);
  }

  // ---------------------------------------------------------------------------
  // The file fetcher

  /**
   * `fetch_file_content`: the body of the request for the file at the
   * commit, or empty text when the request fails in any way; it never raises.
   * `get` is the HTTP request.
   */
  function FetchFileContent(get: (string, string) -> Result<string, string>, path: string, commit: string)
    : (content: Result<string, string>)
    ensures content.Success?
    ensures get(path, commit).Success? ==> content.value == get(path, commit).value
    ensures get(path, commit).Failure? ==> content.value == ""
  {
    match get(path, commit)
    case Success(text) => Success(text)
    case Failure(_) => Success("")
  }

  lemma {:induction false} VerifiedGroupsTotal(fs: seq<Finding>, files: seq<string>, commit: string,
                                               fetch: (string, string) -> Result<string, string>)
    requires forall path :: fetch(path, commit).Success?
    ensures VerifiedGroups(fs, files, commit, fetch).Success?
    decreases |files|
  {
    if |files| > 0 {
      VerifiedGroupsTotal(fs, files[..|files| - 1], commit, fetch);
    }
  }

  /**
   * With the repository's file fetcher no fetch raises, so verification
   * always succeeds; a file that could not be fetched keeps its findings
   * as they were.
   */
  lemma VerifiedWithFetcher(fs: seq<Finding>, commit: string, get: (string, string) -> Result<string, string>)
    ensures Verified(fs, commit, (path, c) => FetchFileContent(get, path, c)).Success?
    ensures forall file :: get(file, commit).Failure? ==>
              ForFile(Verified(fs, commit, (path, c) => FetchFileContent(get, path, c)).value, file) == ForFile(fs, file)
  {
    var fetch := (path, c) => FetchFileContent(get, path, c);
    VerifiedGroupsTotal(fs, FileOrder(fs), commit, fetch);
    FileOrderCorrect(fs);
    forall file | get(file, commit).Failure?
      ensures ForFile(Verified(fs, commit, fetch).value, file) == ForFile(fs, file)
    {
      VerifiedGroupsEmptyContent(fs, FileOrder(fs), commit, fetch, file);
      if file !in FileOrder(fs) {
        ForFileAbsent(fs, file);
      }
    }
  }

  /** A file whose content came back empty keeps its findings exactly as they were. */
  lemma {:induction false} VerifiedGroupsEmptyContent(fs: seq<Finding>, files: seq<string>, commit: string,
                                                      fetch: (string, string) -> Result<string, string>, file: string)
    requires Distinct(files) && fetch(file, commit) == Success("")
    requires VerifiedGroups(fs, files, commit, fetch).Success?
    ensures ForFile(VerifiedGroups(fs, files, commit, fetch).value, file) == if file in files then ForFile(fs, file) else []
    decreases |files|
  {
    if |files| > 0 {
      var init := files[..|files| - 1];
      VerifiedGroupsSnoc(fs, files, commit, fetch);
      assert Distinct(init);
      VerifiedGroupsEmptyContent(fs, init, commit, fetch, file);
      var last := files[|files| - 1];
      assert files == init + [last];
      if last == file {
        assert file !in init;
        EmptyContentSame(fs, file, VerifiedGroups(fs, init, commit, fetch).value);
      } else {
        OtherGroupStep(fs, last, file, VerifiedGroups(fs, init, commit, fetch).value, fetch(last, commit).value);
      }
    } else {
      assert file !in files;
    }
  }

  /** A successful verification of one more file appends that file's verified group. */
  lemma VerifiedGroupsSnoc(fs: seq<Finding>, files: seq<string>, commit: string,
                           fetch: (string, string) -> Result<string, string>)
    requires |files| > 0 && VerifiedGroups(fs, files, commit, fetch).Success?
    ensures VerifiedGroups(fs, files[..|files| - 1], commit, fetch).Success?
    ensures fetch(files[|files| - 1], commit).Success?
    ensures VerifiedGroups(fs, files, commit, fetch).value
            == VerifiedGroups(fs, files[..|files| - 1], commit, fetch).value
               + VerifiedGroup(ForFile(fs, files[|files| - 1]), fetch(files[|files| - 1], commit).value)
  {
  }

  /** `file`'s own group, fetched empty, brings back exactly its findings. */
  lemma EmptyContentSame(fs: seq<Finding>, file: string, vs: seq<Finding>)
    requires ForFile(vs, file) == []
    ensures ForFile(vs + VerifiedGroup(ForFile(fs, file), ""), file) == ForFile(fs, file)
  {
    var g := ForFile(fs, file);
    assert VerifiedGroup(g, "") == g;
    ForFileAppend(vs, g, file);
    ForFileOfForFile(fs, file, file);
  }

  /** Another file's group leaves `file`'s selection as it was. */
  lemma OtherGroupStep(fs: seq<Finding>, last: string, file: string, vs: seq<Finding>, content: string)
    requires last != file
    ensures ForFile(vs + VerifiedGroup(ForFile(fs, last), content), file) == ForFile(vs, file)
  {
    var g := VerifiedGroup(ForFile(fs, last), content);
    ForFileAppend(vs, g, file);
    ForFileOfForFile(fs, last, file);
    VerifiedGroupOtherFile(ForFile(fs, last), content, file);
  }

  /** Verification keeps each finding's file, so it leaves the other files' selections as they were. */
  lemma VerifiedGroupOtherFile(group: seq<Finding>, content: string, file: string)
    requires ForFile(group, file) == []
    ensures ForFile(VerifiedGroup(group, content), file) == []
  {
    var vs := VerifiedGroup(group, content);
    if file in Files(vs) {
      var k :| 0 <= k < |vs| && vs[k].file == file;
      ForFileMember(group, k);
      assert false;
    }
    ForFileAbsent(vs, file);
  }

  /** Every finding of a sequence is in its file's selection. */
  lemma {:induction false} ForFileMember(fs: seq<Finding>, k: nat)
    requires k < |fs|
    ensures fs[k] in ForFile(fs, fs[k].file)
    decreases |fs|
  {
    if k < |fs| - 1 {
      ForFileMember(fs[..|fs| - 1], k);
      assert fs[..|fs| - 1][k] == fs[k];
    }
  }

  // ---------------------------------------------------------------------------
  // The step as written

  /**
   * The finding record has no `code_snippet` attribute, so reading it raises
   * for the first finding of the first file whose fetched content is not
   * empty.
   */
  const MissingSnippetError := "'Finding' object has no attribute 'code_snippet'"

  function VerifiedGroupsAsWritten(fs: seq<Finding>, files: seq<string>, commit: string,
                                   fetch: (string, string) -> Result<string, string>): Result<seq<Finding>, string>
    decreases |files|
  {
    if |files| == 0 then Success([])
    else
      match VerifiedGroupsAsWritten(fs, files[..|files| - 1], commit, fetch)
      case Failure(e) => Failure(e)
      case Success(vs) =>
        match fetch(files[|files| - 1], commit)
        case Failure(e) => Failure(e)
        case Success(content) =>
          if content == "" then Success(vs + ForFile(fs, files[|files| - 1]))
          else Failure(MissingSnippetError)
  }

  function VerifiedAsWritten(fs: seq<Finding>, commit: string, fetch: (string, string) -> Result<string, string>)
    : Result<seq<Finding>, string>
  {
    VerifiedGroupsAsWritten(fs, FileOrder(fs), commit, fetch)
  }

  lemma {:induction false} AsWrittenGroupsNeverCorrect(fs: seq<Finding>, files: seq<string>, commit: string,
                                                       fetch: (string, string) -> Result<string, string>)
    ensures VerifiedGroupsAsWritten(fs, files, commit, fetch).Success? ==>
              VerifiedGroupsAsWritten(fs, files, commit, fetch).value == Grouped(fs, files)
    decreases |files|
  {
    if |files| > 0 {
      AsWrittenGroupsNeverCorrect(fs, files[..|files| - 1], commit, fetch);
    }
  }

  /**
   * As written, verification either fails or returns the findings merely
   * regrouped: no line is ever corrected. One finding in a file with any
   * content already makes it fail, where the corrected step re-anchors it.
   */
  lemma AsWrittenNeverCorrects(fs: seq<Finding>, commit: string, fetch: (string, string) -> Result<string, string>)
    ensures VerifiedAsWritten(fs, commit, fetch).Success? ==> VerifiedAsWritten(fs, commit, fetch).value == Regroup(fs)
  {
    AsWrittenGroupsNeverCorrect(fs, FileOrder(fs), commit, fetch);
  }

  lemma AsWrittenFailsOnContent(f: Finding, commit: string, fetch: (string, string) -> Result<string, string>)
    requires fetch(f.file, commit).Success? && fetch(f.file, commit).value != ""
    ensures VerifiedAsWritten([f], commit, fetch) == Failure(MissingSnippetError)
    ensures Verified([f], commit, fetch).Success?
  {
    assert [f][..0] == [];
    assert FileOrder([f]) == [f.file];
    assert [f.file][..0] == [];
    assert VerifiedGroupsAsWritten([f], [f.file][..0], commit, fetch) == Success([]);
    assert VerifiedGroups([f], [f.file][..0], commit, fetch) == Success([]);
  }
}
