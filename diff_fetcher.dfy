/**
 * Turning a pull request's unified diff into per-file records: splitting the
 * text at `diff --git`, classifying each file's change, keeping the hunks, and
 * prefixing every added and context line with its line number in the new file.
 */
module DiffFetcher {
  import opened Wrappers
  import opened Text
  import opened Models

  // ---------------------------------------------------------------------------
  // Line annotation

  /**
   * The new-file start of a hunk header `@@ -a,b +c,d @@`: the third
   * space-separated field, up to its first comma, without `+` signs, read as an
   * integer. `None` where the field is missing or is not a number.
   */
  function HeaderStart(line: string): Option<int> {
    var parts := Split(line, ' ');
    if |parts| < 3 then None
    else ParseInt(Replace(Split(parts[2], ',')[0], "+", ""))
  }

  predicate IsHeader(line: string) {
    StartsWith(line, "@@")
  }

  /** A line that exists in the new file: an added line or a context line. */
  predicate IsNumbered(line: string) {
    !IsHeader(line) && (StartsWith(line, "+") || StartsWith(line, " "))
  }

  /** A removed line (one that does not start a header or a numbered line). */
  predicate IsRemoved(line: string) {
    !IsHeader(line) && !IsNumbered(line) && StartsWith(line, "-")
  }

  /** The output for one input line, given the current line number `n`. */
  function AnnotateLine(line: string, n: int): string {
    if IsHeader(line) then line
    else if IsNumbered(line) then IntToString(n) + ": " + line
    else if IsRemoved(line) then "    " + line
    else line
  }

  /** The line number after `line` has been read. */
  function NextNumber(line: string, n: int): int {
    if IsHeader(line) then
      match HeaderStart(line)
      case Some(c) => c
      case None => n
    else if IsNumbered(line) then n + 1
    else n
  }

  /** The line number once the lines `ls` have been read, starting from 0. */
  function Counter(ls: seq<string>): int
    decreases |ls|
  {
    if |ls| == 0 then 0 else NextNumber(ls[|ls| - 1], Counter(ls[..|ls| - 1]))
  }

  /** The annotated lines, each annotated with the number reached before it. */
  function AnnotatedLines(ls: seq<string>): seq<string>
    decreases |ls|
  {
    if |ls| == 0 then []
    else AnnotatedLines(ls[..|ls| - 1]) + [AnnotateLine(ls[|ls| - 1], Counter(ls[..|ls| - 1]))]
  }

  /** `_annotate_diff` as a function of the diff text. */
  function Annotated(text: string): string {
    Join(AnnotatedLines(Split(text, '\n')), "\n")
  }

  /** Output line `i` depends on input line `i` and the number reached before it, and on nothing else. */
  lemma {:induction false} AnnotatedLinesAt(ls: seq<string>)
    ensures |AnnotatedLines(ls)| == |ls|
    ensures forall i :: 0 <= i < |ls| ==> AnnotatedLines(ls)[i] == AnnotateLine(ls[i], Counter(ls[..i]))
    decreases |ls|
  {
    if |ls| > 0 {
      var init := ls[..|ls| - 1];
      var out := AnnotatedLines(ls);
      AnnotatedLinesAt(init);
      assert out == AnnotatedLines(init) + [AnnotateLine(ls[|ls| - 1], Counter(init))];
      forall i | 0 <= i < |ls| - 1
        ensures out[i] == AnnotateLine(ls[i], Counter(ls[..i]))
      {
        assert out[i] == AnnotatedLines(init)[i];
        assert init[i] == ls[i] && init[..i] == ls[..i];
      }
    }
  }

  /** Headers, removed lines and other lines leave the number where they found it, except a parseable header. */
  lemma {:induction false} CounterAppend(ls: seq<string>, line: string)
    ensures Counter(ls + [line]) == NextNumber(line, Counter(ls))
  {
    assert (ls + [line])[..|ls|] == ls;
  }

  /** How many lines of `ls` exist in the new file. */
  function NumberedCount(ls: seq<string>): nat
    decreases |ls|
  {
    if |ls| == 0 then 0 else NumberedCount(ls[..|ls| - 1]) + (if IsNumbered(ls[|ls| - 1]) then 1 else 0)
  }

  /**
   * Within a hunk the numbers run on consecutively: between two positions with
   * no header in between, the number grows by the count of added and context lines.
   */
  lemma {:induction false} CounterWithinHunk(ls: seq<string>, i: nat, j: nat)
    requires i <= j <= |ls|
    requires forall k :: i <= k < j ==> !IsHeader(ls[k])
    ensures Counter(ls[..j]) == Counter(ls[..i]) + NumberedCount(ls[i..j])
    decreases j - i
  {
    if i < j {
      CounterWithinHunk(ls, i, j - 1);
      assert ls[..j] == ls[..j - 1] + [ls[j - 1]];
      CounterAppend(ls[..j - 1], ls[j - 1]);
      assert ls[i..j][..j - 1 - i] == ls[i..j - 1];
    }
  }

  /** Removed lines carry no number and do not move the counter. */
  lemma RemovedLineUnnumbered(line: string, n: int)
    requires StartsWith(line, "-")
    ensures AnnotateLine(line, n) == "    " + line
    ensures NextNumber(line, n) == n
  {
    assert line[0] == '-';
  }

  /** A header whose start does not parse is kept and numbering carries on. */
  lemma UnparsedHeaderKeepsNumber(line: string, n: int)
    requires IsHeader(line) && HeaderStart(line) == None
    ensures AnnotateLine(line, n) == line
    ensures NextNumber(line, n) == n
  {
  }

  /** A hunk header `@@ -a,b +c,d <rest>`. */
  function HunkHeader(a: nat, b: nat, c: nat, d: nat, rest: string): string {
    "@@" + " " + ("-" + NatToString(a) + "," + NatToString(b)) + " "
    + ("+" + NatToString(c) + "," + NatToString(d)) + " " + rest
  }

  lemma DigitsLack(s: string, c: char)
    requires AllDigits(s) && !IsDigit(c)
    ensures c !in s
  {
  }

  /** A well-formed header is passed through and resets the counter to the new-file start `c`. */
  lemma HeaderResets(a: nat, b: nat, c: nat, d: nat, rest: string, n: int)
    ensures HeaderStart(HunkHeader(a, b, c, d, rest)) == Some(c)
    ensures AnnotateLine(HunkHeader(a, b, c, d, rest), n) == HunkHeader(a, b, c, d, rest)
    ensures NextNumber(HunkHeader(a, b, c, d, rest), n) == c
  {
    HeaderStartOf(a, b, c, d, rest);
    HeaderIsHeader(a, b, c, d, rest);
  }

  /** A well-formed header starts with `@@`. */
  lemma HeaderIsHeader(a: nat, b: nat, c: nat, d: nat, rest: string)
    ensures IsHeader(HunkHeader(a, b, c, d, rest))
  {
    var tail := " " + ("-" + NatToString(a) + "," + NatToString(b)) + " "
                + ("+" + NatToString(c) + "," + NatToString(d)) + " " + rest;
    assert HunkHeader(a, b, c, d, rest) == "@@" + tail;
    StartsWithAppend("@@", tail);
  }

  /** A well-formed header's new-file start is `c`. */
  lemma HeaderStartOf(a: nat, b: nat, c: nat, d: nat, rest: string)
    ensures HeaderStart(HunkHeader(a, b, c, d, rest)) == Some(c)
  {
    var new_ := "+" + NatToString(c) + "," + NatToString(d);
    HeaderThirdField(a, b, c, d, rest);
    NewSideStart(c, d);
    assert HeaderStart(HunkHeader(a, b, c, d, rest)) == ParseInt(Replace(Split(new_, ',')[0], "+", ""));
  }

  /** The third space-separated field of a header is its new-file side. */
  lemma HeaderThirdField(a: nat, b: nat, c: nat, d: nat, rest: string)
    ensures var parts := Split(HunkHeader(a, b, c, d, rest), ' ');
            |parts| >= 3 && parts[2] == "+" + NatToString(c) + "," + NatToString(d)
  {
    var old_ := "-" + NatToString(a) + "," + NatToString(b);
    var new_ := "+" + NatToString(c) + "," + NatToString(d);
    var h := HunkHeader(a, b, c, d, rest);
    DigitsLack(NatToString(a), ' ');
    DigitsLack(NatToString(b), ' ');
    DigitsLack(NatToString(c), ' ');
    DigitsLack(NatToString(d), ' ');
    SplitWithoutSep("@@", ' ');
    SplitWithoutSep(old_, ' ');
    SplitWithoutSep(new_, ' ');
    assert h == "@@" + [' '] + (old_ + [' '] + (new_ + [' '] + rest));
    SplitAround(new_, rest, ' ');
    SplitAround(old_, new_ + [' '] + rest, ' ');
    SplitAround("@@", old_ + [' '] + (new_ + [' '] + rest), ' ');
  }

  /** The new-file side `+c,d` reads back as `c`. */
  lemma NewSideStart(c: nat, d: nat)
    ensures ParseInt(Replace(Split("+" + NatToString(c) + "," + NatToString(d), ',')[0], "+", "")) == Some(c)
  {
    var new_ := "+" + NatToString(c) + "," + NatToString(d);
    DigitsLack(NatToString(c), ',');
    DigitsLack(NatToString(c), '+');
    assert new_ == ("+" + NatToString(c)) + [','] + NatToString(d);
    SplitWithoutSep("+" + NatToString(c), ',');
    SplitAround("+" + NatToString(c), NatToString(d), ',');
    assert Split(new_, ',')[0] == "+" + NatToString(c);
    ReplaceAbsentChar(NatToString(c), '+');
    assert StartsWith("+" + NatToString(c), "+");
    assert ("+" + NatToString(c))[1..] == NatToString(c);
    assert Replace("+" + NatToString(c), "+", "") == NatToString(c);
    ParseIntToString(c);
  }

  /**
   * `_annotate_diff`'s loop: one output line per input line, the counter reset
   * by each parseable header and advanced by each added or context line.
   */
  method AnnotateLines(lines: seq<string>) returns (annotated: seq<string>)
    ensures annotated == AnnotatedLines(lines)
    ensures |annotated| == |lines|
    ensures forall i :: 0 <= i < |lines| ==> annotated[i] == AnnotateLine(lines[i], Counter(lines[..i]))
  {
    annotated := [];
    var currentLineNumber := 0;
    for i := 0 to |lines|
      invariant annotated == AnnotatedLines(lines[..i])
      invariant currentLineNumber == Counter(lines[..i])
    {
      assert lines[..i + 1][..i] == lines[..i];
      var line := lines[i];
      if StartsWith(line, "@@") {
        var start := HeaderStart(line);
        if start.Some? {
          currentLineNumber := start.value;
        }
        annotated := annotated + [line];
        continue;
      }
      if StartsWith(line, "+") {
        annotated := annotated + [IntToString(currentLineNumber) + ": " + line];
        currentLineNumber := currentLineNumber + 1;
      } else if StartsWith(line, " ") {
        annotated := annotated + [IntToString(currentLineNumber) + ": " + line];
        currentLineNumber := currentLineNumber + 1;
      } else if StartsWith(line, "-") {
        annotated := annotated + ["    " + line];
      } else {
        annotated := annotated + [line];
      }
    }
    assert lines[..|lines|] == lines;
    AnnotatedLinesAt(lines);
  }

  lemma IntToStringNoNewline(i: int)
    ensures '\n' !in IntToString(i)
  {
    var s := NatToString(if i < 0 then -i else i);
    assert forall k :: 0 <= k < |s| ==> s[k] != '\n';
  }

  /** Annotation adds no line break to a line that has none. */
  lemma AnnotateLineNoNewline(line: string, n: int)
    requires '\n' !in line
    ensures '\n' !in AnnotateLine(line, n)
  {
    IntToStringNoNewline(n);
  }

  /**
   * `_annotate_diff`: the annotated text has exactly one line per line of the
   * input, and its line `i` is input line `i` annotated.
   */
  method AnnotateDiff(diffContent: string) returns (r: string)
    ensures r == Annotated(diffContent)
    ensures Split(r, '\n') == AnnotatedLines(Split(diffContent, '\n'))
    ensures |Split(r, '\n')| == |Split(diffContent, '\n')|
  {
    var lines := Split(diffContent, '\n');
    var annotated := AnnotateLines(lines);
    r := Join(annotated, "\n");
    SplitPiecesLackSep(diffContent, '\n');
    forall k | 0 <= k < |annotated|
      ensures '\n' !in annotated[k]
    {
      AnnotateLineNoNewline(lines[k], Counter(lines[..k]));
    }
    SplitJoin(annotated, '\n');
  }

  /**
   * A hunk of three numbered lines and a removed line: after a header starting
   * the new file at line `c`, the numbered lines get `c`, `c + 1` and `c + 2`
   * and the removed line is indented.
   */
  lemma {:induction false} HunkNumbering(h: string, c: nat, x: string, y: string, z: string, w: string)
    requires IsHeader(h) && HeaderStart(h) == Some(c)
    requires IsNumbered(x) && IsNumbered(y) && IsNumbered(z) && StartsWith(w, "-")
    ensures AnnotatedLines([h, x, y, z, w])
            == [h, NatToString(c) + ": " + x, NatToString(c + 1) + ": " + y,
                NatToString(c + 2) + ": " + z, "    " + w]
  {
    var p1 := [h];
    var p2 := p1 + [x];
    var p3 := p2 + [y];
    var p4 := p3 + [z];
    assert p1 == [] + [h];
    AnnotatedAppend([], h);
    CounterAppend([], h);
    assert Counter(p1) == c && AnnotatedLines(p1) == [h];
    NumberedStep(p1, x, c);
    NumberedStep(p2, y, c + 1);
    NumberedStep(p3, z, c + 2);
    RemovedLineUnnumbered(w, c + 3);
    AnnotatedAppend(p4, w);
    FiveInOrder(h, x, y, z, w);
    FiveInOrder(h, NatToString(c) + ": " + x, NatToString(c + 1) + ": " + y,
                NatToString(c + 2) + ": " + z, "    " + w);
  }

  lemma FiveInOrder<T>(a: T, b: T, c: T, d: T, e: T)
    ensures [a] + [b] + [c] + [d] + [e] == [a, b, c, d, e]
  {
  }

  /** A numbered line read at number `c` is annotated with `c` and moves the counter to `c + 1`. */
  lemma NumberedStep(ls: seq<string>, line: string, c: nat)
    requires Counter(ls) == c && IsNumbered(line)
    ensures AnnotatedLines(ls + [line]) == AnnotatedLines(ls) + [NatToString(c) + ": " + line]
    ensures Counter(ls + [line]) == c + 1
  {
    AnnotatedAppend(ls, line);
    CounterAppend(ls, line);
  }

  /**
   * The worked example: after `@@ -10,3 +10,4 @@` the context, added and
   * context lines are numbered 10, 11 and 12 and the removed line is indented.
   */
  lemma ExampleAnnotation(h: string)
    requires h == HunkHeader(10, 3, 10, 4, "@@")
    ensures AnnotatedLines([h, " ctx1", "+added", " ctx2", "-removed"])
            == [h, "10:  ctx1", "11: +added", "12:  ctx2", "    -removed"]
  {
    ExampleLinesNumbered();
    HeaderResets(10, 3, 10, 4, "@@", 0);
    HunkNumbering(h, 10, " ctx1", "+added", " ctx2", "-removed");
    ExampleRendering();
  }

  lemma ExampleLinesNumbered()
    ensures IsNumbered(" ctx1") && IsNumbered("+added") && IsNumbered(" ctx2") && StartsWith("-removed", "-")
  {
    Numbered(" ctx1", ' ');
    Numbered("+added", '+');
    Numbered(" ctx2", ' ');
    StartsWithFirst("-removed", "-");
  }

  lemma ExampleRendering()
    ensures NatToString(10) + ": " + " ctx1" == "10:  ctx1"
    ensures NatToString(10 + 1) + ": " + "+added" == "11: +added"
    ensures NatToString(10 + 2) + ": " + " ctx2" == "12:  ctx2"
    ensures "    " + "-removed" == "    -removed"
  {
  }

  /** A line starting with a space or a plus sign is numbered. */
  lemma Numbered(line: string, c: char)
    requires |line| > 0 && line[0] == c && (c == ' ' || c == '+')
    ensures IsNumbered(line)
  {
    NotStartsWithFirst(line, "@@");
    StartsWithFirst(line, [c]);
  }

  lemma AnnotatedAppend(ls: seq<string>, line: string)
    ensures AnnotatedLines(ls + [line]) == AnnotatedLines(ls) + [AnnotateLine(line, Counter(ls))]
  {
    assert (ls + [line])[..|ls|] == ls;
  }

  // ---------------------------------------------------------------------------
  // Change type

  /** `_determine_change_type`: an addition marker wins, then a removal marker, else modified. */
  function DetermineChangeType(section: string, status: string): (t: ChangeType)
    ensures t == Added <==> status == "added" || Contains(section, "new file mode")
    ensures t == Deleted <==> !(status == "added" || Contains(section, "new file mode"))
                              && (status == "removed" || Contains(section, "deleted file mode"))
  {
    if status == "added" || Contains(section, "new file mode") then Added
    else if status == "removed" || Contains(section, "deleted file mode") then Deleted
    else Modified
  }

  /** Without file-mode markers in the section, the diffstat status decides. */
  lemma ChangeTypeFromStatus(section: string, status: string)
    requires !Contains(section, "new file mode") && !Contains(section, "deleted file mode")
    ensures DetermineChangeType(section, status)
            == if status == "added" then Added else if status == "removed" then Deleted else Modified
  {
  }

  /** A `new file mode` marker makes the file added whatever the diffstat says. */
  lemma NewFileMarkerWins(section: string, status: string)
    requires Contains(section, "new file mode")
    ensures DetermineChangeType(section, status) == Added
  {
  }

  // ---------------------------------------------------------------------------
  // Diffstat

  /** The `new` side of a diffstat entry: absent or empty, present without a path, or with a path. */
  datatype NewSide = NoNew | NewWithoutPath | NewPath(path: string)

  /** A line count of a diffstat entry: the key absent, present as `null`, or a whole number. */
  datatype Count = Missing | Null | Number(n: int)

  /**
   * One diffstat entry; a `None` status marks an absent key. A `null` status
   * compares unequal to every status name, as `""` does, and is written so.
   */
  datatype StatItem = StatItem(
    newSide: NewSide,
    linesAdded: Count,
    linesRemoved: Count,
    status: Option<string>)

  /** What the diff parser keeps of an entry, with defaults filled in; `None` is a `null` count. */
  datatype StatEntry = StatEntry(additions: Option<int>, deletions: Option<int>, status: string)

  /** `item.get(key, 0)`: an absent count is 0, a `null` one stays `None`. */
  function CountOf(c: Count): Option<int> {
    match c
    case Missing => Some(0)
    case Null => None
    case Number(n) => Some(n)
  }

  function EntryOf(item: StatItem): StatEntry {
    StatEntry(CountOf(item.linesAdded), CountOf(item.linesRemoved), item.status.GetOr("modified"))
  }

  /** The path-to-entry map built from the diffstat, or the key error an entry without a path raises. */
  function StatMap(items: seq<StatItem>): Result<map<string, StatEntry>, string>
    decreases |items|
  {
    if |items| == 0 then Success(map[])
    else
      match StatMap(items[..|items| - 1])
      case Failure(e) => Failure(e)
      case Success(m) =>
        var item := items[|items| - 1];
        match item.newSide
        case NoNew => Success(m)
        case NewWithoutPath => Failure("KeyError: 'path'")
        case NewPath(p) => Success(m[p := EntryOf(item)])
  }

  /**
   * The map holds exactly the paths of entries with a `new` side, each with
   * the entry of the last item naming it.
   */
  lemma StatMapKeys(items: seq<StatItem>, p: string)
    requires StatMap(items).Success?
    ensures p in StatMap(items).value <==> exists i :: 0 <= i < |items| && items[i].newSide == NewPath(p)
    ensures p in StatMap(items).value ==>
              exists i :: 0 <= i < |items| && items[i].newSide == NewPath(p)
                          && StatMap(items).value[p] == EntryOf(items[i])
                          && forall j :: i < j < |items| ==> items[j].newSide != NewPath(p)
  {
    StatMapDomain(items, p);
    StatMapLastEntry(items, p);
  }

  lemma {:induction false} StatMapDomain(items: seq<StatItem>, p: string)
    requires StatMap(items).Success?
    ensures p in StatMap(items).value <==> exists i :: 0 <= i < |items| && items[i].newSide == NewPath(p)
    decreases |items|
  {
    if |items| > 0 {
      var init := items[..|items| - 1];
      var last := items[|items| - 1];
      StatMapDomain(init, p);
      if last.newSide == NewPath(p) {
        assert items[|items| - 1].newSide == NewPath(p);
      } else {
        if p in StatMap(items).value {
          var i :| 0 <= i < |init| && init[i].newSide == NewPath(p);
          assert items[i] == init[i];
        }
        if exists i :: 0 <= i < |items| && items[i].newSide == NewPath(p) {
          var i :| 0 <= i < |items| && items[i].newSide == NewPath(p);
          assert init[i] == items[i];
        }
      }
    }
  }

  lemma {:induction false} StatMapLastEntry(items: seq<StatItem>, p: string)
    requires StatMap(items).Success?
    ensures p in StatMap(items).value ==>
              exists i :: 0 <= i < |items| && items[i].newSide == NewPath(p)
                          && StatMap(items).value[p] == EntryOf(items[i])
                          && forall j :: i < j < |items| ==> items[j].newSide != NewPath(p)
    decreases |items|
  {
    if |items| > 0 {
      var init := items[..|items| - 1];
      var last := items[|items| - 1];
      StatMapLastEntry(init, p);
      if last.newSide == NewPath(p) {
        assert StatMap(items) == Success(StatMap(init).value[p := EntryOf(last)]);
      } else if p in StatMap(items).value {
        var m := StatMap(init).value;
        if last.newSide.NewPath? {
          assert StatMap(items) == Success(m[last.newSide.path := EntryOf(last)]);
        } else if last.newSide.NoNew? {
          assert StatMap(items) == Success(m);
        }
        var i :| 0 <= i < |init| && init[i].newSide == NewPath(p)
                 && StatMap(init).value[p] == EntryOf(init[i])
                 && forall j :: i < j < |init| ==> init[j].newSide != NewPath(p);
        assert items[i] == init[i];
      }
    }
  }

  /** The diffstat loop: keep entries with a `new` side, later entries overwriting earlier ones. */
  method BuildStatMap(items: seq<StatItem>) returns (r: Result<map<string, StatEntry>, string>)
    ensures r == StatMap(items)
  {
    var m: map<string, StatEntry> := map[];
    for i := 0 to |items|
      invariant StatMap(items[..i]) == Success(m)
    {
      assert items[..i + 1][..i] == items[..i];
      var item := items[i];
      match item.newSide {
        case NoNew =>
        case NewWithoutPath =>
          assert StatMap(items[..i + 1]).Failure?;
          StatMapFailureSticks(items, i + 1);
          return Failure("KeyError: 'path'");
        case NewPath(p) =>
          m := m[p := EntryOf(item)];
      }
    }
    assert items[..|items|] == items;
    r := Success(m);
  }

  /** Once an entry has failed, the whole map fails. */
  lemma {:induction false} StatMapFailureSticks(items: seq<StatItem>, k: nat)
    requires k <= |items| && StatMap(items[..k]) == Failure("KeyError: 'path'")
    ensures StatMap(items) == Failure("KeyError: 'path'")
    decreases |items| - k
  {
    if k < |items| {
      assert items[..k + 1][..k] == items[..k];
      StatMapFailureSticks(items, k + 1);
    } else {
      assert items[..k] == items;
    }
  }

  // ---------------------------------------------------------------------------
  // Sections

  /** The index of the first hunk header, or `|lines|` when there is none. */
  function FirstHunk(lines: seq<string>): (k: nat)
    ensures k <= |lines|
    ensures forall j :: 0 <= j < k ==> !IsHeader(lines[j])
    ensures k < |lines| ==> IsHeader(lines[k])
    decreases |lines|
  {
    if |lines| == 0 then 0
    else if IsHeader(lines[0]) then 0
    else 1 + FirstHunk(lines[1..])
  }

  /** The `in_diff` loop: collect every line from the first hunk header on. */
  method HunkLines(lines: seq<string>) returns (diffLines: seq<string>)
    ensures diffLines == lines[FirstHunk(lines)..]
  {
    diffLines := [];
    var inDiff := false;
    var k := FirstHunk(lines);
    for i := 0 to |lines|
      invariant inDiff <==> k < i
      invariant diffLines == if k < i then lines[k..i] else []
    {
      if StartsWith(lines[i], "@@") {
        inDiff := true;
      }
      if inDiff {
        diffLines := diffLines + [lines[i]];
      }
    }
  }

  /** The path of a section's header line: second field, leading `b` and `/` characters stripped. */
  function SectionPath(header: string): Option<string> {
    var parts := Words(header);
    if |parts| < 2 then None else Some(LStripChars(parts[1], {'b', '/'}))
  }

  /**
   * The stripping removes every leading `b`, not a `b/` prefix: `b/batch-app/x`
   * becomes `atch-app/x`.
   */
  lemma {:induction false} PathStripEatsLeadingB(t: string)
    requires |t| > 0 && t[0] != 'b' && t[0] != '/'
    ensures LStripChars("b/b" + t, {'b', '/'}) == t
  {
    var cs := {'b', '/'};
    assert ("b/b" + t)[0] == 'b' && ("b/b" + t)[1..] == "/b" + t;
    assert ("/b" + t)[0] == '/' && ("/b" + t)[1..] == "b" + t;
    assert ("b" + t)[0] == 'b' && ("b" + t)[1..] == t;
  }

  /** The entry of a path the diffstat does not name. */
  const NoEntry := StatEntry(Some(0), Some(0), "modified")

  /**
   * One section after `diff --git`: `None` when its header has fewer than two
   * fields or when the record rejects its diffstat counts (a `null` count or
   * a negative one).
   */
  function ParseSection(section: string, stats: map<string, StatEntry>): Option<FileDiff> {
    var lines := Split(section, '\n');
    match SectionPath(lines[0])
    case None => None
    case Some(path) =>
      var stat := if path in stats then stats[path] else NoEntry;
      var content := Join(lines[FirstHunk(lines)..], "\n");
      if stat.additions.None? || stat.deletions.None? then None
      else
        match MakeFileDiff(path, content, DetermineChangeType(section, stat.status),
                           stat.additions.value, stat.deletions.value, Some(Annotated(content)))
        case Success(fd) => Some(fd)
        case Failure(_) => None
  }

  /** A `null` count in the file's diffstat entry fails the record's validation, so the section is skipped. */
  lemma NullCountSkipsSection(section: string, stats: map<string, StatEntry>)
    requires SectionPath(Split(section, '\n')[0]).Some?
    requires var p := SectionPath(Split(section, '\n')[0]).value;
             p in stats && (stats[p].additions.None? || stats[p].deletions.None?)
    ensures ParseSection(section, stats).None?
  {
  }

  /** The records of the parseable sections, in order. */
  function ParseSections(sections: seq<string>, stats: map<string, StatEntry>): seq<FileDiff>
    decreases |sections|
  {
    if |sections| == 0 then []
    else
      var init := ParseSections(sections[..|sections| - 1], stats);
      match ParseSection(sections[|sections| - 1], stats)
      case Some(fd) => init + [fd]
      case None => init
  }

  /** `_parse_diff` as a function of the diff text and the diffstat entries. */
  function ParsedDiff(text: string, items: seq<StatItem>): Result<seq<FileDiff>, string> {
    match StatMap(items)
    case Failure(e) => Failure(e)
    case Success(stats) => Success(ParseSections(SplitOn(text, "diff --git")[1..], stats))
  }

  /** What a parsed record holds: its counts come from the diffstat (zero when absent) and its annotation from its content. */
  lemma {:induction false} ParsedSectionShape(section: string, stats: map<string, StatEntry>)
    requires ParseSection(section, stats).Some?
    ensures var fd := ParseSection(section, stats).value;
            && SectionPath(Split(section, '\n')[0]) == Some(fd.filePath)
            && (fd.filePath in stats ==> stats[fd.filePath].additions == Some(fd.additions)
                                         && stats[fd.filePath].deletions == Some(fd.deletions))
            && (fd.filePath !in stats ==> fd.additions == 0 && fd.deletions == 0
                                          && fd.changeType == DetermineChangeType(section, "modified"))
            && fd.annotatedContent == Some(Annotated(fd.diffContent))
            && (var lines := Split(section, '\n');
                fd.diffContent == Join(lines[FirstHunk(lines)..], "\n"))
  {
  }

  /** Sections are parsed in order and each yields at most one record. */
  lemma {:induction false} ParseSectionsBound(sections: seq<string>, stats: map<string, StatEntry>)
    ensures |ParseSections(sections, stats)| <= |sections|
    ensures forall k :: 0 <= k < |ParseSections(sections, stats)| ==>
              exists j :: 0 <= j < |sections| && ParseSection(sections[j], stats) == Some(ParseSections(sections, stats)[k])
    decreases |sections|
  {
    if |sections| > 0 {
      var init := sections[..|sections| - 1];
      ParseSectionsBound(init, stats);
      var r := ParseSections(sections, stats);
      forall k | 0 <= k < |r|
        ensures exists j :: 0 <= j < |sections| && ParseSection(sections[j], stats) == Some(r[k])
      {
        if k < |ParseSections(init, stats)| {
          var j :| 0 <= j < |init| && ParseSection(init[j], stats) == Some(ParseSections(init, stats)[k]);
          assert sections[j] == init[j];
        } else {
          assert ParseSection(sections[|sections| - 1], stats) == Some(r[k]);
        }
      }
    }
  }

  /** The body of `_parse_diff`'s loop: one section's record, if it parses. */
  method ParseFileSection(section: string, stats: map<string, StatEntry>) returns (r: Option<FileDiff>)
    ensures r == ParseSection(section, stats)
  {
    r := None;
    var lines := Split(section, '\n');
    var parts := Words(lines[0]);
    if |parts| >= 2 {
      var filePath := LStripChars(parts[1], {'b', '/'});
      var statInfo := if filePath in stats then stats[filePath] else NoEntry;
      var changeType := DetermineChangeType(section, statInfo.status);
      var diffLines := HunkLines(lines);
      var content := Join(diffLines, "\n");
      var annotated := AnnotateDiff(content);
      if statInfo.additions.Some? && statInfo.deletions.Some? {
        var fileDiff := MakeFileDiff(filePath, content, changeType, statInfo.additions.value,
                                     statInfo.deletions.value, Some(annotated));
        if fileDiff.Success? {
          r := Some(fileDiff.value);
        }
      }
    }
  }

  /**
   * `_parse_diff`: the diffstat map first (an entry without a path raises),
   * then each section after `diff --git`, skipping those that do not parse.
   */
  method ParseDiff(diffContent: string, diffstat: seq<StatItem>) returns (r: Result<seq<FileDiff>, string>)
    ensures r == ParsedDiff(diffContent, diffstat)
    ensures r.Success? ==> |r.value| < |SplitOn(diffContent, "diff --git")|
  {
    var statMap := BuildStatMap(diffstat);
    if statMap.Failure? {
      return Failure(statMap.error);
    }
    var stats := statMap.value;
    var fileSections := SplitOn(diffContent, "diff --git");
    var sections := fileSections[1..];
    var fileDiffs: seq<FileDiff> := [];
    for i := 0 to |sections|
      invariant fileDiffs == ParseSections(sections[..i], stats)
    {
      assert sections[..i + 1][..i] == sections[..i];
      var parsed := ParseFileSection(sections[i], stats);
      if parsed.Some? {
        fileDiffs := fileDiffs + [parsed.value];
      }
    }
    assert sections[..|sections|] == sections;
    ParseSectionsBound(sections, stats);
    r := Success(fileDiffs);
  }
}
